/**
 The relay calls HMAC without an output buffer, so all its threads share one static digest.  A thread
 computes into it and then compares or copies the first four bytes; other threads may compute between.
 */
module RelayDigest {
  import opened Bytes
  import opened Wire

  // The shared digest, and for every thread between its two steps the bytes it is signing.
  datatype State = State(digest: seq<byte>, signing: map<nat, seq<byte>>)

  datatype Action = Compute(t: nat, q: seq<byte>) | Use(t: nat)

  predicate Enabled(s: State, a: Action) {
    match a
    case Compute(t, _) => t !in s.signing
    case Use(t) => t in s.signing
  }

  function Apply(c: Crypto, key: seq<byte>, s: State, a: Action): State {
    match a
    case Compute(t, q) => State(c.hmac(key, q), s.signing[t := q])
    case Use(t) => s.(signing := s.signing - {t})
  }

  // The actions of a run, from the zeroed static buffer on.
  predicate IsRun(c: Crypto, key: seq<byte>, actions: seq<Action>) {
    actions != [] ==>
      var front := actions[..|actions| - 1];
      IsRun(c, key, front) && Enabled(After(c, key, front), actions[|actions| - 1])
  }

  function After(c: Crypto, key: seq<byte>, actions: seq<Action>): State {
    if actions == [] then State(seq<byte>(32, _ => 0), map[])
    else Apply(c, key, After(c, key, actions[..|actions| - 1]), actions[|actions| - 1])
  }

  // The bytes of the latest computation.
  function Latest(actions: seq<Action>): seq<byte>
    requires Computes(actions)
  {
    var last := actions[|actions| - 1];
    if last.Compute? then last.q else Latest(actions[..|actions| - 1])
  }

  predicate Computes(actions: seq<Action>) {
    exists i :: 0 <= i < |actions| && actions[i].Compute?
  }

  // What a thread that is about to compare finds in the shared buffer, in every run.
  lemma {:induction false} DigestIsLatest(c: Crypto, key: seq<byte>, actions: seq<Action>, t: nat)
    requires IsRun(c, key, actions) && t in After(c, key, actions).signing
    ensures Computes(actions) && After(c, key, actions).digest == c.hmac(key, Latest(actions))
  {
    var front, last := actions[..|actions| - 1], actions[|actions| - 1];
    if last.Use? {
      DigestIsLatest(c, key, front, t);
      var i :| 0 <= i < |front| && front[i].Compute?;
      assert actions[i].Compute?;
    }
  }

  // The comparison of a received tag with the shared buffer.
  predicate Found(c: Crypto, key: seq<byte>, actions: seq<Action>, tag: seq<byte>) {
    |After(c, key, actions).digest| >= 4 && After(c, key, actions).digest[..4] == tag
  }

  // The comparison answers rightly for every tag if and only if the latest message signed by anybody has
  // the tag of the thread's own.
  lemma VerdictIsRight(c: Crypto, key: seq<byte>, actions: seq<Action>, t: nat)
    requires IsRun(c, key, actions) && t in After(c, key, actions).signing
    ensures Computes(actions)
    ensures var q := After(c, key, actions).signing[t];
            (forall tag :: |tag| == 4 ==> (Found(c, key, actions, tag) <==> Tag(c, key, q) == tag))
            <==> Tag(c, key, Latest(actions)) == Tag(c, key, q)
  {
    DigestIsLatest(c, key, actions, t);
    var q, latest := After(c, key, actions).signing[t], Tag(c, key, Latest(actions));
    if forall tag :: |tag| == 4 ==> (Found(c, key, actions, tag) <==> Tag(c, key, q) == tag) {
      assert Found(c, key, actions, latest);
    }
  }

  // Nobody has computed since thread t did.
  predicate Undisturbed(actions: seq<Action>, t: nat) {
    exists i :: 0 <= i < |actions| && actions[i].Compute? && actions[i].t == t
                && forall j :: i < j < |actions| ==> actions[j].Use? && actions[j].t != t
  }

  function Signer(actions: seq<Action>): nat
    requires Computes(actions)
  {
    var last := actions[|actions| - 1];
    if last.Compute? then last.t else Signer(actions[..|actions| - 1])
  }

  // A thread between its two steps is the latest signer if and only if it is undisturbed.
  lemma {:induction false} SignerIsUndisturbed(c: Crypto, key: seq<byte>, actions: seq<Action>, t: nat)
    requires IsRun(c, key, actions) && t in After(c, key, actions).signing
    ensures Computes(actions) && (Signer(actions) == t <==> Undisturbed(actions, t))
  {
    DigestIsLatest(c, key, actions, t);
    var n := |actions| - 1;
    var front, last := actions[..n], actions[n];
    if last.Use? {
      SignerIsUndisturbed(c, key, front, t);
      UndisturbedByUse(actions, t);
    } else if last.t == t {
      assert Undisturbed(actions, t);
    }
  }

  lemma UndisturbedByUse(actions: seq<Action>, t: nat)
    requires actions != [] && actions[|actions| - 1].Use? && actions[|actions| - 1].t != t
    ensures Undisturbed(actions, t) <==> Undisturbed(actions[..|actions| - 1], t)
  {
    var n := |actions| - 1;
    var front := actions[..n];
    if Undisturbed(actions, t) {
      var i :| 0 <= i < |actions| && actions[i].Compute? && actions[i].t == t
               && forall j :: i < j < |actions| ==> actions[j].Use? && actions[j].t != t;
      assert front[i] == actions[i];
      assert forall j :: i < j < n ==> front[j] == actions[j];
    }
    if Undisturbed(front, t) {
      var i :| 0 <= i < n && front[i].Compute? && front[i].t == t
               && forall j :: i < j < n ==> front[j].Use? && front[j].t != t;
      assert forall j :: i < j < n ==> actions[j] == front[j];
      assert actions[i] == front[i];
    }
  }

  // Then it finds its own digest.
  lemma {:induction false} OwnDigest(c: Crypto, key: seq<byte>, actions: seq<Action>, t: nat)
    requires IsRun(c, key, actions) && Undisturbed(actions, t)
    ensures var s := After(c, key, actions); t in s.signing && s.digest == c.hmac(key, s.signing[t])
  {
    var front, last := actions[..|actions| - 1], actions[|actions| - 1];
    var i :| 0 <= i < |actions| && actions[i].Compute? && actions[i].t == t
             && forall j :: i < j < |actions| ==> actions[j].Use? && actions[j].t != t;
    if last.Use? {
      assert front[i] == actions[i];
      OwnDigest(c, key, front, t);
    }
  }

  // In particular the comparison is right when no other thread computes between the two steps.
  lemma UndisturbedIsRight(c: Crypto, key: seq<byte>, actions: seq<Action>, t: nat, tag: seq<byte>)
    requires IsRun(c, key, actions) && Undisturbed(actions, t)
    ensures t in After(c, key, actions).signing
    ensures Found(c, key, actions, tag) <==> Tag(c, key, After(c, key, actions).signing[t]) == tag
  {
    OwnDigest(c, key, actions, t);
  }

  // Two threads: a correctly signed message is refused because another thread signs in between, and a
  // message with the tag of that other one is accepted.
  lemma Disturbed(c: Crypto, key: seq<byte>, q: seq<byte>, other: seq<byte>) returns (actions: seq<Action>)
    requires Tag(c, key, q) != Tag(c, key, other)
    ensures IsRun(c, key, actions) && 0 in After(c, key, actions).signing && After(c, key, actions).signing[0] == q
    ensures !Found(c, key, actions, Tag(c, key, q)) && Found(c, key, actions, Tag(c, key, other))
  {
    var one := [Compute(0, q)];
    actions := [Compute(0, q), Compute(1, other)];
    assert one[..0] == [] && actions[..1] == one;
    assert IsRun(c, key, one);
  }
}
