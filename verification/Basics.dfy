/** Small vocabulary shared by every module of this project. */
module Basics {
  datatype Option<+T> = None | Some(value: T)

  datatype Result<+T, +E> = Ok(value: T) | Err(error: E)

  /** One octet of a Buffer. */
  type Byte = x: int | 0 <= x < 256

  lemma Regroup<T>(a: seq<T>, b: seq<T>, c: seq<T>)
    ensures a + (b + c) == (a + b) + c
  {
  }

  lemma TakeInTwo<T>(s: seq<T>, k: nat, n: nat)
    requires k <= n <= |s|
    ensures s[..n] == s[..k] + s[k..][..n - k]
  {
  }

  function Pow2(n: nat): (p: nat)
    ensures p > 0
  {
    if n == 0 then 1 else 2 * Pow2(n - 1)
  }

  /** Buffer.concat, and the order in which a socket's writes arrive. */
  function Flatten<T>(parts: seq<seq<T>>): seq<T> {
    if parts == [] then [] else parts[0] + Flatten(parts[1..])
  }

  lemma FlattenAppend<T>(a: seq<seq<T>>, b: seq<seq<T>>)
    ensures Flatten(a + b) == Flatten(a) + Flatten(b)
  {
    if a == [] {
      assert a + b == b;
    } else {
      assert (a + b)[0] == a[0] && (a + b)[1..] == a[1..] + b;
      FlattenAppend(a[1..], b);
    }
  }

  lemma FlattenOne<T>(a: seq<seq<T>>, x: seq<T>)
    ensures Flatten(a + [x]) == Flatten(a) + x
  {
    FlattenAppend(a, [x]);
    assert Flatten([x]) == x + Flatten([x][1..]);
  }

  // ---- big-endian numbers in a Buffer -----------------------------------------

  /** readUInt16BE, readUInt32BE, readBigUInt64BE. */
  function ReadBE(b: seq<Byte>): nat {
    if b == [] then 0 else ReadBE(b[..|b| - 1]) * 256 + b[|b| - 1]
  }

  /** writeUInt16BE, writeBigUInt64BE and their like: the low `width` bytes of n, most significant first. */
  function WriteBE(n: nat, width: nat): (b: seq<Byte>)
    ensures |b| == width
  {
    if width == 0 then [] else WriteBE(n / 256, width - 1) + [n % 256]
  }

  function Pow256(width: nat): nat {
    if width == 0 then 1 else 256 * Pow256(width - 1)
  }

  lemma {:induction false} ReadWriteBE(n: nat, width: nat)
    requires n < Pow256(width)
    ensures ReadBE(WriteBE(n, width)) == n
  {
    if width > 0 {
      ReadWriteBE(n / 256, width - 1);
      var b := WriteBE(n, width);
      assert b[..width - 1] == WriteBE(n / 256, width - 1);
    }
  }

  lemma {:induction false} WriteReadBE(b: seq<Byte>)
    ensures WriteBE(ReadBE(b), |b|) == b && ReadBE(b) < Pow256(|b|)
  {
    if b != [] {
      var shorter := b[..|b| - 1];
      WriteReadBE(shorter);
      assert b == shorter + [b[|b| - 1]];
    }
  }
}
