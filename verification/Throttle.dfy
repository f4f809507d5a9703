/**
 * The sign-in throttle of src/api/auth.ts: misses counted per bucket, places
 * held by guesses still being checked, lockouts that double, and a bounded
 * memory. One call reads the clock once; calls are atomic (the event loop).
 */
module Throttle {
  import opened Basics

  const MAX_BUCKETS := 10_000
  const KEPT_BUCKETS := 8_000
  const MAX_STRIKES := 10_000
  /** One day, in milliseconds. */
  const STRIKE_MEMORY_MS := 24 * 60 * 60_000

  datatype Config = Config(failLimit: nat, failsCeiling: nat, windowMs: nat)

  datatype Miss = Miss(n: nat, until: int)
  datatype Strike = Strike(n: nat, until: int)

  datatype Counts = Counts(failures: map<string, Miss>, pending: map<string, nat>, strikes: map<string, Strike>)

  const NO_COUNTS := Counts(map[], map[], map[])

  // ---- buckets ---------------------------------------------------------------

  /** k.includes(part) */
  predicate Includes(k: string, part: string) {
    part <= k || (k != "" && Includes(k[1..], part))
  }

  /** k.endsWith(part) */
  predicate EndsWith(k: string, part: string) {
    |part| <= |k| && k[|k| - |part|..] == part
  }

  predicate IsAccount(k: string) { Includes(k, "user:") }
  predicate IsPublic(k: string) { Includes(k, "pub:") }
  predicate IsCeiling(k: string) { EndsWith(k, "pub:all") }

  /** How many misses a bucket takes before it refuses. */
  function LimitFor(k: string, cfg: Config): nat {
    if IsCeiling(k) then cfg.failsCeiling
    else if Includes(k, "user:*") then cfg.failLimit * 10 else cfg.failLimit
  }

  /** Who is asking: a visitor of the public listener by their address bucket, anyone else by their address. */
  datatype Client = Visitor(bucket: string) | Caller(address: string)

  /** A separate count: signing in, sign-in links, second factors. */
  datatype Scope = SignIn | Link | SecondFactor

  function Prefix(scope: Scope): string {
    match scope case SignIn => "" case Link => "link:" case SecondFactor => "2fa:"
  }

  /** What a bucket counts; `account` is the bounded account key. */
  datatype Bucket = OfClient(client: Client) | OfAccount(public: bool, account: string) | OfEveryone

  /** The part of a client's bucket that it was given: a visitor's network, or the start of an address. */
  function Address(client: Client): string {
    match client
    case Visitor(bucket) => bucket
    case Caller(address) => if |address| > 80 then address[..80] else address
  }

  function Plain(b: Bucket): string {
    match b
    case OfClient(client) => (if client.Visitor? then "pub:ip:" else "ip:") + Address(client)
    case OfAccount(public, account) => (if public then "pub:user:" else "user:") + account
    case OfEveryone => "pub:all"
  }

  function Name(b: Bucket, scope: Scope): string { Prefix(scope) + Plain(b) }

  function Buckets(client: Client, account: Option<string>): seq<Bucket> {
    [OfClient(client)]
    + (if account.Some? then [OfAccount(client.Visitor?, account.value)] else [])
    + (if client.Visitor? then [OfEveryone] else [])
  }

  /** The keys one request counts under. */
  function Keys(client: Client, account: Option<string>, scope: Scope): seq<string> {
    var bs := Buckets(client, account);
    seq(|bs|, i requires 0 <= i < |bs| => Name(bs[i], scope))
  }

  /**
   * Exactly which keys a request counts under: at the public listener its
   * network, its account if one was named, and everyone together; elsewhere
   * the first eighty characters of its address, and its account; each kept
   * apart by scope.
   */
  lemma KeysExactly(client: Client, account: Option<string>, scope: Scope, k: string)
    ensures var apart := if scope.Link? then "link:" else if scope.SecondFactor? then "2fa:" else "";
            k in Keys(client, account, scope) <==>
            match client
            case Visitor(bucket) =>
              k == apart + "pub:all" || k == apart + ("pub:ip:" + bucket) || (account.Some? && k == apart + ("pub:user:" + account.value))
            case Caller(address) =>
              k == apart + ("ip:" + address[..if |address| < 80 then |address| else 80]) || (account.Some? && k == apart + ("user:" + account.value))
  {
    var bs := Buckets(client, account);
    KeysAreNames(client, account, scope, k);
    forall b ensures b in bs <==> b == OfClient(client) || (account.Some? && b == OfAccount(client.Visitor?, account.value)) || (client.Visitor? && b == OfEveryone) {}
    hide Buckets, Keys;
    assert k in Keys(client, account, scope) <==>
           || k == Name(OfClient(client), scope)
           || (account.Some? && k == Name(OfAccount(client.Visitor?, account.value), scope))
           || (client.Visitor? && k == Name(OfEveryone, scope));
    if client.Caller? { assert client.address[..|client.address|] == client.address; }
  }

  lemma KeysAreNames(client: Client, account: Option<string>, scope: Scope, k: string)
    ensures k in Keys(client, account, scope) <==> exists b :: b in Buckets(client, account) && k == Name(b, scope)
  {
    var bs, keys := Buckets(client, account), Keys(client, account, scope);
    forall b | b in bs ensures Name(b, scope) in keys {
      var i :| 0 <= i < |bs| && bs[i] == b;
      assert keys[i] == Name(b, scope);
    }
    if k in keys {
      var i :| 0 <= i < |keys| && keys[i] == k;
      assert bs[i] in bs;
    }
  }

  ghost predicate Distinct(keys: seq<string>) {
    forall i, j :: 0 <= i < j < |keys| ==> keys[i] != keys[j]
  }

  lemma DifferAt(a: string, b: string, i: nat)
    requires i < |a| && i < |b| && a[i] != b[i]
    ensures a != b
  {
  }

  /** What a name starts with tells the scope; what follows it, whom it is of. */
  lemma NamesApart(b: Bucket, c: Bucket, s: Scope, t: Scope)
    requires s != t || (b.OfClient? && !c.OfClient?) || (b.OfAccount? && c.OfEveryone?)
          || (b.OfClient? && c.OfClient? && b.client.Visitor? != c.client.Visitor?)
          || (b.OfAccount? && c.OfAccount? && b.public != c.public)
    ensures Name(b, s) != Name(c, t)
  {
    if s != t {
      DifferAt(Name(b, s), Name(c, t), 0);
    } else if Plain(b)[0] != Plain(c)[0] {
      DifferAt(Name(b, s), Name(c, s), |Prefix(s)|);
    } else {
      assert Plain(b)[4] != Plain(c)[4];
      DifferAt(Name(b, s), Name(c, s), |Prefix(s)| + 4);
    }
  }

  lemma KeysDistinct(client: Client, account: Option<string>, scope: Scope)
    ensures Distinct(Keys(client, account, scope))
  {
    var bs := Buckets(client, account);
    forall i, j | 0 <= i < j < |bs| ensures Name(bs[i], scope) != Name(bs[j], scope) {
      NamesApart(bs[i], bs[j], scope, scope);
    }
  }

  /**
   * The public listener counts apart, and so does each scope: a visitor shares
   * no bucket with a private caller, and requests of two scopes share none.
   */
  lemma PublicCountsApart(one: Client, a: Option<string>, s: Scope, other: Client, b: Option<string>, t: Scope)
    requires s != t || one.Visitor? != other.Visitor?
    ensures forall k <- Keys(one, a, s) :: k !in Keys(other, b, t)
  {
    var bs, cs := Buckets(one, a), Buckets(other, b);
    forall i, j | 0 <= i < |bs| && 0 <= j < |cs| ensures Name(bs[i], s) != Name(cs[j], t) {
      if s == t && ((cs[j].OfClient? && !bs[i].OfClient?) || (cs[j].OfAccount? && bs[i].OfEveryone?)) {
        NamesApart(cs[j], bs[i], t, s);
      } else {
        NamesApart(bs[i], cs[j], s, t);
      }
    }
  }

  // ---- what a name is taken for -----------------------------------------------

  /** `part` has one colon, at `at`, and something else before it than `p`, which ends in its only colon: no match of it begins in `p`. */
  lemma NoneAcross(p: string, s: string, part: string, at: nat, i: nat)
    requires i < |p| && p[|p| - 1] == ':' && ':' !in p[..|p| - 1]
    requires 0 < at < |part| && part[at] == ':' && ':' !in part[..at]
    requires |p| >= 2 ==> p[|p| - 2] != part[at - 1]
    ensures !(part <= p[i..] + s)
  {
    var whole, end := p[i..] + s, |p| - 1 - i;
    assert whole[end] == ':';
    if at < end {
      assert whole[at] == p[..|p| - 1][i + at];
    } else if end < at {
      assert part[..at][end] == part[end];
    } else {
      assert whole[at - 1] == p[|p| - 2];
    }
  }

  /** So it is in `p + s` when it is in `s`. */
  lemma {:induction false} InRest(p: string, s: string, part: string, at: nat)
    requires p != "" && p[|p| - 1] == ':' && ':' !in p[..|p| - 1]
    requires 0 < at < |part| && part[at] == ':' && ':' !in part[..at]
    requires |p| >= 2 ==> p[|p| - 2] != part[at - 1]
    ensures Includes(p + s, part) <==> Includes(s, part)
    decreases |p|
  {
    NoneAcross(p, s, part, at, 0);
    assert p[0..] == p;
    if |p| == 1 {
      assert (p + s)[1..] == s;
    } else {
      assert p[1..][..|p| - 2] == p[..|p| - 1][1..];
      assert (p + s)[1..] == p[1..] + s;
      InRest(p[1..], s, part, at);
    }
  }

  lemma AtEndOfRest(p: string, s: string, part: string, at: nat)
    requires p != "" && p[|p| - 1] == ':' && ':' !in p[..|p| - 1]
    requires 0 < at < |part| && part[at] == ':' && ':' !in part[..at]
    requires |p| >= 2 ==> p[|p| - 2] != part[at - 1]
    ensures EndsWith(p + s, part) <==> EndsWith(s, part)
  {
    var whole := p + s;
    if |part| <= |s| {
      assert whole[|whole| - |part|..] == s[|s| - |part|..];
    } else if |part| <= |whole| {
      var i := |whole| - |part|;
      NoneAcross(p, s, part, at, i);
      assert whole[i..] == p[i..] + s;
    }
  }

  /** Being kept for one of the source's three scopes changes nothing about what a name is taken for. */
  lemma ScopeAside(s: string, scope: Scope)
    ensures Includes(Prefix(scope) + s, "user:") <==> Includes(s, "user:")
    ensures Includes(Prefix(scope) + s, "user:*") <==> Includes(s, "user:*")
    ensures Includes(Prefix(scope) + s, "pub:") <==> Includes(s, "pub:")
    ensures EndsWith(Prefix(scope) + s, "pub:all") <==> EndsWith(s, "pub:all")
  {
    if scope.SignIn? {
      assert Prefix(scope) + s == s;
    } else {
      InRest(Prefix(scope), s, "user:", 4);
      InRest(Prefix(scope), s, "user:*", 4);
      InRest(Prefix(scope), s, "pub:", 3);
      AtEndOfRest(Prefix(scope), s, "pub:all", 3);
    }
  }

  /**
   * What a caller's own bucket is taken for is decided by the address it was
   * given, wherever that came from: it counts as an account's exactly when the
   * address has "user:" in it, as public when it has "pub:", and its limit is
   * everyone's ceiling when the address ends in "pub:all".
   */
  lemma CallerIsReadByAddress(address: string, scope: Scope, cfg: Config)
    ensures var k, a := Name(OfClient(Caller(address)), scope), Address(Caller(address));
            && (IsAccount(k) <==> Includes(a, "user:"))
            && (IsPublic(k) <==> Includes(a, "pub:"))
            && LimitFor(k, cfg) == (if EndsWith(a, "pub:all") then cfg.failsCeiling
                                    else if Includes(a, "user:*") then cfg.failLimit * 10 else cfg.failLimit)
  {
    var a := Address(Caller(address));
    ScopeAside("ip:" + a, scope);
    InRest("ip:", a, "user:", 4);
    InRest("ip:", a, "user:*", 4);
    InRest("ip:", a, "pub:", 3);
    AtEndOfRest("ip:", a, "pub:all", 3);
  }

  lemma ClientIsReadByAddress(client: Client)
    ensures IsAccount(Plain(OfClient(client))) <==> Includes(Address(client), "user:")
  {
    hide Includes;
    var a := Address(client);
    InRest("ip:", a, "user:", 4);
    if client.Visitor? {
      InRest("pub:", "ip:" + a, "user:", 4);
      assert "pub:" + ("ip:" + a) == "pub:ip:" + a;
    }
  }

  lemma AccountIsRead(public: bool, account: string)
    ensures IsAccount(Plain(OfAccount(public, account)))
  {
    assert Includes("user:" + account, "user:");
    if public {
      hide Includes;
      InRest("pub:", "user:" + account, "user:", 4);
      assert "pub:" + ("user:" + account) == "pub:user:" + account;
    }
  }

  lemma EveryoneIsNot()
    ensures !IsAccount(Plain(OfEveryone))
  {
    hide Includes;
    InRest("pub:", "all", "user:", 4);
    TooShort("all", "user:");
    assert "pub:" + "all" == "pub:all";
  }

  /** Any client's bucket counts as an account's exactly when its address has "user:" in it; an account's always does. */
  lemma AccountsAreReadByName(b: Bucket, scope: Scope)
    ensures IsAccount(Name(b, scope)) <==> b.OfAccount? || (b.OfClient? && Includes(Address(b.client), "user:"))
  {
    hide Includes, Plain;
    ScopeAside(Plain(b), scope);
    match b {
      case OfClient(client) => ClientIsReadByAddress(client);
      case OfAccount(public, account) => AccountIsRead(public, account);
      case OfEveryone => EveryoneIsNot();
    }
  }

  lemma {:induction false} TooShort(k: string, part: string)
    requires |k| < |part|
    ensures !Includes(k, part)
  {
    if k != "" { TooShort(k[1..], part); }
  }

  // ---- what each call does, as functions of the counts -------------------------

  function Live(c: Counts, k: string, now: int): nat {
    if k in c.failures && now <= c.failures[k].until then c.failures[k].n else 0
  }

  function InFlight(c: Counts, k: string): nat {
    if k in c.pending then c.pending[k] else 0
  }

  /** The expired entry of one bucket deleted. */
  function Fresh(c: Counts, k: string, now: int): Counts {
    if k in c.failures && now > c.failures[k].until then c.(failures := c.failures - {k}) else c
  }

  function Look(c: Counts, keys: seq<string>, now: int, cfg: Config): (Counts, bool)
    decreases |keys|
  {
    if keys == [] then (c, false)
    else
      var d := Fresh(c, keys[0], now);
      if keys[0] in d.failures && d.failures[keys[0]].n >= LimitFor(keys[0], cfg) then (d, true)
      else Look(d, keys[1..], now, cfg)
  }

  /** The check of `reserve`: is any bucket full, the guesses in flight counted? */
  function Probe(c: Counts, keys: seq<string>, now: int, cfg: Config): (Counts, bool)
    decreases |keys|
  {
    if keys == [] then (c, true)
    else
      var d := Fresh(c, keys[0], now);
      if Live(c, keys[0], now) + InFlight(c, keys[0]) >= LimitFor(keys[0], cfg) then (d, false)
      else Probe(d, keys[1..], now, cfg)
  }

  function Held(pending: map<string, nat>, keys: seq<string>): map<string, nat>
    decreases |keys|
  {
    if keys == [] then pending
    else Held(pending[keys[0] := (if keys[0] in pending then pending[keys[0]] else 0) + 1], keys[1..])
  }

  function LetGo(pending: map<string, nat>, keys: seq<string>): map<string, nat>
    decreases |keys|
  {
    if keys == [] then pending
    else
      var k := keys[0];
      LetGo(if k in pending && pending[k] > 1 then pending[k := pending[k] - 1] else pending - {k}, keys[1..])
  }

  /** A place in the count, or a refusal. */
  function Reserved(c: Counts, keys: seq<string>, now: int, cfg: Config): (Counts, bool) {
    var (d, ok) := Probe(c, keys, now, cfg);
    if ok then (d.(pending := Held(d.pending, keys)), true) else (d, false)
  }

  function Noted(c: Counts, k: string, now: int, cfg: Config): Miss {
    if k !in c.failures || now > c.failures[k].until then Miss(1, now + cfg.windowMs)
    else Miss(c.failures[k].n + 1, c.failures[k].until)
  }

  /** A public bucket, other than the ceiling on everyone, that this miss just filled: a lockout. */
  predicate Fills(c: Counts, k: string, now: int, cfg: Config) {
    IsPublic(k) && !IsCeiling(k) && Noted(c, k, now, cfg).n == LimitFor(k, cfg)
  }

  function StrikeNumber(c: Counts, k: string, now: int): nat {
    if k in c.strikes && now < c.strikes[k].until then c.strikes[k].n + 1 else 1
  }

  /** One window for the first strike, twice as long for each one after, a day at most. */
  function LockMs(strike: nat, cfg: Config): nat
    requires strike >= 1
  {
    var ms := cfg.windowMs * Pow2(strike - 1);
    if ms < STRIKE_MEMORY_MS then ms else STRIKE_MEMORY_MS
  }

  /** Old strikes are swept once there are many. */
  function SweptStrikes(s: map<string, Strike>, now: int): map<string, Strike> {
    if |s| > MAX_STRIKES then map k | k in s && now <= s[k].until :: s[k] else s
  }

  function NoteOne(c: Counts, k: string, now: int, cfg: Config): Counts {
    var m := Noted(c, k, now, cfg);
    if Fills(c, k, now, cfg) then
      var n := StrikeNumber(c, k, now);
      c.(failures := c.failures[k := m.(until := now + LockMs(n, cfg))],
         strikes := SweptStrikes(c.strikes[k := Strike(n, now + STRIKE_MEMORY_MS)], now))
    else c.(failures := c.failures[k := m])
  }

  function NoteAll(c: Counts, keys: seq<string>, now: int, cfg: Config): Counts
    decreases |keys|
  {
    if keys == [] then c else NoteAll(NoteOne(c, keys[0], now, cfg), keys[1..], now, cfg)
  }

  function Unexpired(f: map<string, Miss>, now: int): map<string, Miss> {
    map k | k in f && now <= f[k].until :: f[k]
  }

  /** Client buckets before account buckets (told apart by name), fewest misses first. */
  predicate GoesBefore(f: map<string, Miss>, a: string, b: string)
    requires a in f && b in f
  {
    if IsAccount(a) != IsAccount(b) then IsAccount(b) else f[a].n <= f[b].n
  }

  ghost predicate Submap(g: map<string, Miss>, f: map<string, Miss>) {
    forall k <- g :: k in f && g[k] == f[k]
  }

  /** What a purge may leave of `f` (ties are broken by neither rule). */
  ghost predicate Purged(f: map<string, Miss>, g: map<string, Miss>, now: int) {
    if |f| <= MAX_BUCKETS then g == f
    else
      var u := Unexpired(f, now);
      if |u| <= KEPT_BUCKETS then g == u
      else
        && Submap(g, u) && |g| == KEPT_BUCKETS
        && forall k, j :: k in u && k !in g && j in g ==> GoesBefore(u, k, j)
  }

  /** A purge starts above ten thousand, takes every expired entry, and leaves eight thousand when that is not enough. */
  lemma PurgeLeaves(f: map<string, Miss>, g: map<string, Miss>, now: int, k: string)
    requires Purged(f, g, now)
    ensures |f| <= 10_000 ==> g == f
    ensures |f| > 10_000 ==> (k in g ==> k in f && g[k] == f[k] && now <= f[k].until) && |g| <= 8_000
    ensures |f| > 10_000 && |g| < 8_000 ==> (k in f && now <= f[k].until ==> k in g)
  {
  }

  /** What counts as an account's bucket goes, unexpired, only when nothing else is left. */
  lemma ReadAccountsGoLast(f: map<string, Miss>, g: map<string, Miss>, now: int, k: string)
    requires Purged(f, g, now)
    ensures |g| <= MAX_BUCKETS && Submap(g, f)
    ensures k in f && k !in g && now <= f[k].until && IsAccount(k) ==> forall j <- g :: IsAccount(j)
  {
    if k in f && k !in g && now <= f[k].until && IsAccount(k) {
      var u := Unexpired(f, now);
      forall j | j in g ensures IsAccount(j) {
        assert GoesBefore(u, k, j);
      }
    }
  }

  /** No client whose address has "user:" in it is counted. */
  ghost predicate PlainAddresses(f: map<string, Miss>) {
    forall client, scope :: Name(OfClient(client), scope) in f ==> !Includes(Address(client), "user:")
  }

  /**
   * Bounded; and with plain addresses an account's unexpired bucket goes only
   * when no client's is left, nor the ceiling on everyone.
   */
  lemma PurgeIsKind(f: map<string, Miss>, g: map<string, Miss>, now: int, public: bool, account: string, s: Scope)
    requires Purged(f, g, now) && PlainAddresses(f)
    ensures |g| <= 10_000 && Submap(g, f)
    ensures var k := Name(OfAccount(public, account), s);
            k in f && k !in g && now <= f[k].until ==> forall b, t :: Name(b, t) in g ==> b.OfAccount?
  {
    var k := Name(OfAccount(public, account), s);
    AccountsAreReadByName(OfAccount(public, account), s);
    ReadAccountsGoLast(f, g, now, k);
    hide Purged, IsAccount;
    if k in f && k !in g && now <= f[k].until {
      forall b, t | Name(b, t) in g ensures b.OfAccount? {
        AccountsAreReadByName(b, t);
      }
    }
  }

  /** A purge that lets an account's unexpired bucket go and keeps `j`. */
  ghost predicate Outlasts(f: map<string, Miss>, g: map<string, Miss>, now: int, j: string, k: Bucket, s: Scope) {
    && Purged(f, g, now) && j in g
    && k.OfAccount? && Name(k, s) in f && Name(k, s) !in g && now <= f[Name(k, s)].until
  }

  /** The account buckets of users with one-letter names. */
  function Nth(i: nat): string
    requires i < MAX_BUCKETS
  {
    Name(OfAccount(false, [(0x4E00 + i) as char]), SignIn)
  }

  function Crowd(low: nat, n: nat): map<string, Miss>
    requires low <= n <= MAX_BUCKETS
    decreases n - low
  {
    if low == n then map[] else Crowd(low, n - 1)[Nth(n - 1) := Miss(1, 0)]
  }

  lemma {:induction false} CrowdIs(low: nat, n: nat, i: nat)
    requires low <= n <= MAX_BUCKETS && i < MAX_BUCKETS
    ensures |Crowd(low, n)| == n - low && (Nth(i) in Crowd(low, n) <==> low <= i < n)
    ensures forall k <- Crowd(low, n) :: Crowd(low, n)[k] == Miss(1, 0) && exists m :: low <= m < n && k == Nth(m)
    decreases n
  {
    if low < n {
      CrowdIs(low, n - 1, n - 1);
      CrowdIs(low, n - 1, i);
      NthDiffer(i, n - 1);
    }
  }

  lemma NthDiffer(i: nat, j: nat)
    requires i < MAX_BUCKETS && j < MAX_BUCKETS
    ensures i != j ==> Nth(i) != Nth(j)
    ensures IsAccount(Nth(i)) && Nth(i)[0] == 'u'
  {
    AccountsAreReadByName(OfAccount(false, [(0x4E00 + i) as char]), SignIn);
    if i != j { DifferAt(Nth(i), Nth(j), 5); }
  }

  lemma CrowdAreAccounts(low: nat)
    requires low <= MAX_BUCKETS
    ensures forall k <- Crowd(low, MAX_BUCKETS) ::
              k != "" && k[0] == 'u' && IsAccount(k) && Crowd(low, MAX_BUCKETS)[k] == Miss(1, 0) && k in Crowd(0, MAX_BUCKETS)
  {
    CrowdIs(low, MAX_BUCKETS, 0);
    forall k | k in Crowd(low, MAX_BUCKETS) ensures k != "" && k[0] == 'u' && IsAccount(k) && k in Crowd(0, MAX_BUCKETS) {
      var m :| low <= m < MAX_BUCKETS && k == Nth(m);
      NthDiffer(m, m);
      CrowdIs(0, MAX_BUCKETS, m);
    }
  }

  lemma LeastGoFirst(all: map<string, Miss>, kept: map<string, Miss>, j: string)
    requires |all| == MAX_BUCKETS && |kept| == KEPT_BUCKETS - 1 && Submap(kept, all) && j !in all
    requires IsAccount(j) && forall k <- all :: IsAccount(k) && all[k] == Miss(1, 0)
    ensures Purged(all[j := Miss(2, 0)], kept[j := Miss(2, 0)], 0)
  {
    hide IsAccount;
    var f := all[j := Miss(2, 0)];
    assert Unexpired(f, 0) == f;
    assert j !in kept;
  }

  /** A full table in which `j`, taken for an account's, has one miss more than ten thousand accounts. */
  lemma CrowdedOut(j: string) returns (f: map<string, Miss>, g: map<string, Miss>)
    requires IsAccount(j) && j != "" && j[0] != 'u'
    ensures Outlasts(f, g, 0, j, OfAccount(false, [(0x4E00) as char]), SignIn)
  {
    var first := MAX_BUCKETS - KEPT_BUCKETS + 1;
    var all, kept := Crowd(0, MAX_BUCKETS), Crowd(first, MAX_BUCKETS);
    f, g := all[j := Miss(2, 0)], kept[j := Miss(2, 0)];
    CrowdIs(0, MAX_BUCKETS, 0);
    CrowdIs(first, MAX_BUCKETS, 0);
    NthZero();
    hide Nth, Crowd, IsAccount, Purged;
    CrowdAreAccounts(0);
    CrowdAreAccounts(first);
    LeastGoFirst(all, kept, j);
  }

  lemma NthZero()
    ensures Nth(0) == Name(OfAccount(false, [(0x4E00) as char]), SignIn)
  {
  }

  /**
   * Exactly which clients' buckets can outlast an account's: those whose
   * address has "user:" in it. (The private listener takes a forwarded address
   * from a local peer as it is written.)
   */
  lemma OutlastsExactlyWhenReadAsAccount(client: Client, scope: Scope)
    ensures (exists f, g, now, k, s :: Outlasts(f, g, now, Name(OfClient(client), scope), k, s))
            <==> Includes(Address(client), "user:")
  {
    var j := Name(OfClient(client), scope);
    AccountsAreReadByName(OfClient(client), scope);
    if IsAccount(j) {
      var f, g := CrowdedOut(j);
    }
    forall f, g, now, k, s | Outlasts(f, g, now, j, k, s) ensures IsAccount(j) {
      AccountsAreReadByName(k, s);
      ReadAccountsGoLast(f, g, now, Name(k, s));
    }
  }

  // ---- the throttle ------------------------------------------------------------

  /** What `reserve` hands out: released once, whatever is called. */
  class Slot {
    const keys: seq<string>
    var released: bool
    constructor (keys: seq<string>)
      ensures this.keys == keys && !released
    {
      this.keys := keys;
      released := false;
    }
  }

  class LoginThrottle {
    const cfg: Config
    var failures: map<string, Miss>
    var pending: map<string, nat>
    var strikes: map<string, Strike>

    function State(): Counts
      reads this
    {
      Counts(failures, pending, strikes)
    }

    constructor (cfg: Config)
      ensures State() == NO_COUNTS && this.cfg == cfg
    {
      this.cfg := cfg;
      failures, pending, strikes := map[], map[], map[];
    }

    method Throttled(keys: seq<string>, now: int) returns (refused: bool)
      modifies this`failures
      ensures (State(), refused) == Look(old(State()), keys, now, cfg)
    {
      var i := 0;
      while i < |keys|
        invariant 0 <= i <= |keys|
        invariant Look(old(State()), keys, now, cfg) == Look(State(), keys[i..], now, cfg)
      {
        var k := keys[i];
        assert keys[i..][1..] == keys[i + 1..];
        if k in failures {
          if now > failures[k].until {
            failures := failures - {k};
          } else if failures[k].n >= LimitFor(k, cfg) {
            return true;
          }
        }
        i := i + 1;
      }
      return false;
    }

    method Reserve(keys: seq<string>, now: int) returns (slot: Slot?)
      modifies this`failures, this`pending
      ensures (State(), slot != null) == Reserved(old(State()), keys, now, cfg)
      ensures slot != null ==> fresh(slot) && slot.keys == keys && !slot.released
    {
      var i := 0;
      while i < |keys|
        invariant 0 <= i <= |keys| && pending == old(pending)
        invariant Probe(old(State()), keys, now, cfg) == Probe(State(), keys[i..], now, cfg)
      {
        var k := keys[i];
        assert keys[i..][1..] == keys[i + 1..];
        var live := if k in failures && now <= failures[k].until then failures[k].n else 0;
        var counted := live + (if k in pending then pending[k] else 0);
        if k in failures && now > failures[k].until {
          failures := failures - {k};
        }
        if counted >= LimitFor(k, cfg) { return null; }
        i := i + 1;
      }
      assert Probe(old(State()), keys, now, cfg) == (State(), true);
      ghost var probed := State();
      var j := 0;
      while j < |keys|
        invariant 0 <= j <= |keys| && State() == probed.(pending := pending)
        invariant Held(old(pending), keys) == Held(pending, keys[j..])
      {
        assert keys[j..][1..] == keys[j + 1..];
        pending := pending[keys[j] := (if keys[j] in pending then pending[keys[j]] else 0) + 1];
        j := j + 1;
      }
      slot := new Slot(keys);
    }

    /** The function `reserve` returned; a second call does nothing. */
    method Release(slot: Slot)
      modifies this`pending, slot
      ensures slot.released
      ensures State() == if old(slot.released) then old(State()) else old(State()).(pending := LetGo(old(pending), slot.keys))
    {
      if slot.released { return; }
      slot.released := true;
      var i := 0;
      while i < |slot.keys|
        invariant 0 <= i <= |slot.keys| && slot.released
        invariant LetGo(old(pending), slot.keys) == LetGo(pending, slot.keys[i..])
      {
        var k := slot.keys[i];
        assert slot.keys[i..][1..] == slot.keys[i + 1..];
        var held: int := if k in pending then pending[k] else 1;
        var n := held - 1;
        if n > 0 { pending := pending[k := n]; } else { pending := pending - {k}; }
        i := i + 1;
      }
    }

    /** How long a bucket that just filled is locked; the strike is remembered for a day. */
    method LockMsFor(k: string, now: int) returns (ms: nat)
      modifies this`strikes
      ensures var n := StrikeNumber(old(State()), k, now);
              && ms == LockMs(n, cfg)
              && strikes == SweptStrikes(old(strikes)[k := Strike(n, now + STRIKE_MEMORY_MS)], now)
    {
      var n := if k in strikes && now < strikes[k].until then strikes[k].n + 1 else 1;
      strikes := strikes[k := Strike(n, now + STRIKE_MEMORY_MS)];
      if |strikes| > MAX_STRIKES {
        strikes := map j | j in strikes && now <= strikes[j].until :: strikes[j];
      }
      ms := LockMs(n, cfg);
    }

    method NoteFailure(keys: seq<string>, now: int)
      modifies this`failures, this`strikes
      ensures var noted := NoteAll(old(State()), keys, now, cfg);
              && Purged(noted.failures, failures, now)
              && State() == noted.(failures := failures)
    {
      hide NoteOne, Purged;
      var i := 0;
      while i < |keys|
        invariant 0 <= i <= |keys| && pending == old(pending)
        invariant NoteAll(old(State()), keys, now, cfg) == NoteAll(State(), keys[i..], now, cfg)
      {
        assert keys[i..][1..] == keys[i + 1..];
        NoteMiss(keys[i], now);
        i := i + 1;
      }
      Purge(now);
    }

    /** One turn of the loop: a miss in one bucket, and its lock if that filled it. */
    method NoteMiss(k: string, now: int)
      modifies this`failures, this`strikes
      ensures State() == NoteOne(old(State()), k, now, cfg)
    {
      var cur := if k !in failures || now > failures[k].until then Miss(1, now + cfg.windowMs) else Miss(failures[k].n + 1, failures[k].until);
      if IsPublic(k) && cur.n == LimitFor(k, cfg) && !IsCeiling(k) {
        var ms := LockMsFor(k, now);
        cur := cur.(until := now + ms);
      }
      failures := failures[k := cur];
    }

    method Purge(now: int)
      modifies this`failures
      ensures Purged(old(failures), failures, now)
    {
      if |failures| <= MAX_BUCKETS { return; }
      failures := Unexpired(failures, now);
      ghost var u := failures;
      while |failures| > KEPT_BUCKETS
        invariant Submap(failures, u)
        invariant |u| > KEPT_BUCKETS ==> |failures| >= KEPT_BUCKETS
        invariant |u| <= KEPT_BUCKETS ==> failures == u
        invariant forall k, j :: k in u && k !in failures && j in failures ==> GoesBefore(u, k, j)
        decreases |failures|
      {
        var first := FirstToGo();
        assert |failures - {first}| == |failures| - 1 by {
          assert (failures - {first}).Keys == failures.Keys - {first};
          assert |failures.Keys| == |failures| && |(failures - {first}).Keys| == |failures - {first}|;
        }
        failures := failures - {first};
      }
    }

    /** The head of the sorted list. */
    method FirstToGo() returns (first: string)
      requires |failures| > 0
      ensures first in failures && forall j <- failures :: GoesBefore(failures, first, j)
    {
      var left := failures.Keys;
      assert |left| == |failures|;
      first :| first in left;
      left := left - {first};
      while left != {}
        invariant first in failures && left <= failures.Keys
        invariant forall j :: j in failures && j !in left ==> GoesBefore(failures, first, j)
        decreases left
      {
        var k :| k in left;
        if GoesBefore(failures, k, first) { first := k; }
        left := left - {k};
      }
    }

    /** A recovered account starts clean. */
    method ClearFailures(account: string)
      modifies this`failures
      ensures State() == old(State()).(failures := old(failures) - {"user:" + account, "pub:user:" + account})
    {
      failures := failures - {"user:" + account};
      failures := failures - {"pub:user:" + account};
    }
  }
}
