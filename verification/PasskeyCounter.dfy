/**
 * The signature counter of a passkey (verifyAssertion in src/api/webauthn.ts,
 * stored by the verify handler of src/api/secondFactor.ts; section 6.1.1 of
 * Web Authentication Level 2), over any run of answers.
 */
module PasskeyCounter {
  import opened Basics

  /** The counter to store, or a refusal: the key may have been copied. */
  function Check(stored: nat, reported: nat): Option<nat> {
    if (reported != 0 || stored != 0) && reported <= stored then None else Some(reported)
  }

  /** The passkey's row, and the counters accepted so far. */
  datatype World = World(stored: nat, accepted: seq<nat>)

  function Answer(w: World, reported: nat): World {
    match Check(w.stored, reported)
    case None => w
    case Some(count) => World(count, w.accepted + [count])
  }

  function Run(w: World, answers: seq<nat>): World
    decreases |answers|
  {
    if answers == [] then w else Run(Answer(w, answers[0]), answers[1..])
  }

  /** Zeros, then ever higher counts; the row holds the last. */
  predicate Rising(w: World) {
    (forall i, j :: 0 <= i < j < |w.accepted| ==> w.accepted[i] < w.accepted[j] || w.accepted[i] == 0 == w.accepted[j]) &&
    (forall c <- w.accepted :: c <= w.stored) && (w.stored != 0 ==> w.stored in w.accepted)
  }

  lemma AnswerRises(w: World, reported: nat)
    requires Rising(w)
    ensures Rising(Answer(w, reported))
  {
    forall i | 0 <= i < |w.accepted| ensures w.accepted[i] <= w.stored { assert w.accepted[i] in w.accepted; }
    var v := Answer(w, reported);
    if v != w { assert v.accepted[|w.accepted|] == v.stored; }
  }

  lemma {:induction false} RunRises(w: World, answers: seq<nat>)
    requires Rising(w)
    ensures Rising(Run(w, answers))
    decreases |answers|
  {
    if answers != [] {
      AnswerRises(w, answers[0]);
      RunRises(Answer(w, answers[0]), answers[1..]);
    }
  }

  lemma {:induction false} RunGoesOn(w: World, answers: seq<nat>, reported: nat)
    ensures Run(w, answers + [reported]) == Answer(Run(w, answers), reported)
    decreases |answers|
  {
    if answers == [] {
      assert [reported][1..] == [];
    } else {
      assert (answers + [reported])[1..] == answers[1..] + [reported];
      RunGoesOn(Answer(w, answers[0]), answers[1..], reported);
    }
  }

  /**
   * Over any run: no count but 0 is accepted twice, and 0 only while the
   * passkey has never counted; so of two devices that share a key and count,
   * an answer is refused as soon as it is not ahead of every earlier one. The
   * next answer is accepted exactly when it is ahead, or nothing ever counted.
   */
  lemma NoCountTwice(answers: seq<nat>, reported: nat)
    ensures var w := Run(World(0, []), answers);
            var ahead := (forall c <- w.accepted :: c < reported) || (reported == 0 && forall c <- w.accepted :: c == 0);
            && Rising(w) && (Check(w.stored, reported).Some? <==> ahead)
            && Run(World(0, []), answers + [reported]) == if ahead then World(reported, w.accepted + [reported]) else w
  {
    RunRises(World(0, []), answers);
    RunGoesOn(World(0, []), answers, reported);
    var w := Run(World(0, []), answers);
    if w.stored == 0 && reported == 0 {
      assert forall c <- w.accepted :: c == 0;
    }
  }
}
