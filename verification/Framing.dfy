/** The text a signature covers. */
module Framing {
  datatype Triple = Triple(messageId: string, payloadHash: string, expiresAt: string)

  function SignaturePayload(t: Triple): string {
    t.messageId + "|" + t.payloadHash + "|" + t.expiresAt
  }

  predicate BarFree(s: string) {
    '|' !in s
  }

  predicate Unambiguous(t: Triple) {
    BarFree(t.messageId) && BarFree(t.payloadHash) && BarFree(t.expiresAt)
  }

  // ----- the parts of a text between its bars -----

  function Parts(s: string): (r: seq<string>)
    ensures r != []
  {
    if s == [] then [[]]
    else
      var rest := Parts(s[1..]);
      if s[0] == '|' then [[]] + rest else [[s[0]] + rest[0]] + rest[1..]
  }

  function Join(ps: seq<string>): string
    requires ps != []
  {
    if |ps| == 1 then ps[0] else ps[0] + "|" + Join(ps[1..])
  }

  lemma {:induction false} JoinParts(s: string)
    ensures Join(Parts(s)) == s
  {
    if s != [] {
      var rest := Parts(s[1..]);
      JoinParts(s[1..]);
      assert s == [s[0]] + s[1..];
      if s[0] == '|' {
        assert Parts(s)[1..] == rest;
      } else {
        assert Parts(s)[1..] == rest[1..];
      }
    }
  }

  lemma {:induction false} PartsAreBarFree(s: string)
    ensures forall i :: 0 <= i < |Parts(s)| ==> BarFree(Parts(s)[i])
  {
    if s != [] { PartsAreBarFree(s[1..]); }
  }

  lemma {:induction false} BarFreeIsOnePart(s: string)
    ensures BarFree(s) <==> Parts(s) == [s]
  {
    if s != [] {
      BarFreeIsOnePart(s[1..]);
      assert s == [s[0]] + s[1..];
      if !BarFree(s) && s[0] != '|' {
        JoinParts(s[1..]);
        assert Parts(s)[1..] == Parts(s[1..])[1..];
      }
    }
  }

  lemma {:induction false} PartsAppend(a: string, b: string)
    ensures Parts(a + "|" + b) == Parts(a) + Parts(b)
  {
    if a == [] {
      assert a + "|" + b == "|" + b;
    } else {
      assert (a + "|" + b)[1..] == a[1..] + "|" + b;
      PartsAppend(a[1..], b);
    }
  }

  lemma {:induction false} PartsOfJoin(ps: seq<string>)
    requires ps != [] && forall i :: 0 <= i < |ps| ==> BarFree(ps[i])
    ensures Parts(Join(ps)) == ps
  {
    BarFreeIsOnePart(ps[0]);
    if |ps| > 1 {
      PartsOfJoin(ps[1..]);
      PartsAppend(ps[0], Join(ps[1..]));
      assert ps == [ps[0]] + ps[1..];
    } else {
      assert ps == [ps[0]];
    }
  }

  lemma SameParts(a: string, b: string)
    requires Parts(a) == Parts(b)
    ensures a == b
  {
    JoinParts(a);
    JoinParts(b);
  }

  lemma PayloadParts(t: Triple)
    ensures Parts(SignaturePayload(t)) == Parts(t.messageId) + Parts(t.payloadHash) + Parts(t.expiresAt)
  {
    PartsAppend(t.messageId + "|" + t.payloadHash, t.expiresAt);
    PartsAppend(t.messageId, t.payloadHash);
  }

  lemma BarFreeIsUnique(t: Triple, u: Triple)
    requires Unambiguous(t) && SignaturePayload(u) == SignaturePayload(t)
    ensures u == t
  {
    PayloadParts(t);
    PayloadParts(u);
    BarFreeIsOnePart(t.messageId);
    BarFreeIsOnePart(t.payloadHash);
    BarFreeIsOnePart(t.expiresAt);
    var ps := Parts(SignaturePayload(t));
    assert ps == [t.messageId, t.payloadHash, t.expiresAt];
    assert |Parts(u.messageId)| == 1 && |Parts(u.payloadHash)| == 1 && |Parts(u.expiresAt)| == 1;
    assert Parts(u.messageId) == [ps[0]] && Parts(u.payloadHash) == [ps[1]] && Parts(u.expiresAt) == [ps[2]];
    SameParts(u.messageId, t.messageId);
    SameParts(u.payloadHash, t.payloadHash);
    SameParts(u.expiresAt, t.expiresAt);
  }

  lemma SplitAtBar(s: string) returns (p: string, q: string)
    requires !BarFree(s)
    ensures s == p + "|" + q
  {
    var i :| 0 <= i < |s| && s[i] == '|';
    p, q := s[..i], s[i + 1..];
  }

  /** A bar inside a part lets the text be cut elsewhere. */
  lemma OtherReading(t: Triple) returns (u: Triple)
    requires !Unambiguous(t)
    ensures u != t && SignaturePayload(u) == SignaturePayload(t)
  {
    if !BarFree(t.messageId) {
      var p, q := SplitAtBar(t.messageId);
      u := Triple(p, q + "|" + t.payloadHash, t.expiresAt);
      assert SignaturePayload(u) == p + "|" + q + "|" + t.payloadHash + "|" + t.expiresAt;
    } else if !BarFree(t.payloadHash) {
      var p, q := SplitAtBar(t.payloadHash);
      u := Triple(t.messageId + "|" + p, q, t.expiresAt);
      assert SignaturePayload(t) == t.messageId + "|" + p + "|" + q + "|" + t.expiresAt;
    } else {
      var p, q := SplitAtBar(t.expiresAt);
      u := Triple(t.messageId, t.payloadHash + "|" + p, q);
      assert SignaturePayload(t) == t.messageId + "|" + t.payloadHash + "|" + p + "|" + q;
    }
  }

  /** The signed text names one triple exactly when no part of the triple contains a bar. */
  lemma FramingIsUnique(t: Triple)
    ensures Unambiguous(t) <==> forall u :: SignaturePayload(u) == SignaturePayload(t) ==> u == t
  {
    if Unambiguous(t) {
      forall u | SignaturePayload(u) == SignaturePayload(t) ensures u == t { BarFreeIsUnique(t, u); }
    } else {
      var u := OtherReading(t);
    }
  }

  // ----- readings whose middle part is a hash -----

  /** The parts that another reading of the signed text can take for the hash: all of the id but the first,
      all of the expiry but the last. */
  function InnerParts(t: Triple): seq<string> {
    Parts(t.messageId)[1..] + Parts(t.expiresAt)[..|Parts(t.expiresAt)| - 1]
  }

  /** A reading with a bar-free hash is the triple itself, or takes an inner part for the hash. */
  lemma ReadingTakesInnerPart(t: Triple, u: Triple)
    requires BarFree(t.payloadHash) && BarFree(u.payloadHash) && SignaturePayload(u) == SignaturePayload(t)
    ensures u == t || u.payloadHash in InnerParts(t)
  {
    PayloadParts(t);
    PayloadParts(u);
    BarFreeIsOnePart(t.payloadHash);
    BarFreeIsOnePart(u.payloadHash);
    var ids, exps := Parts(t.messageId), Parts(t.expiresAt);
    var ps, at, n := Parts(SignaturePayload(t)), |Parts(u.messageId)|, |Parts(t.messageId)|;
    assert ps == ids + [t.payloadHash] + exps;
    assert ps == Parts(u.messageId) + [u.payloadHash] + Parts(u.expiresAt);
    assert ps[at] == u.payloadHash;
    if at < n {
      assert InnerParts(t)[at - 1] == ids[at];
    } else if at > n {
      assert InnerParts(t)[at - 2] == exps[at - n - 1];
    } else {
      assert ps[..n] == ids && ps[..n] == Parts(u.messageId);
      assert ps[n + 1..] == exps && ps[n + 1..] == Parts(u.expiresAt);
      SameParts(u.messageId, t.messageId);
      SameParts(u.expiresAt, t.expiresAt);
    }
  }

  lemma JoinedParts(ps: seq<string>, at: nat)
    requires 1 <= at < |ps| - 1 && forall i :: 0 <= i < |ps| ==> BarFree(ps[i])
    ensures var u := Triple(Join(ps[..at]), ps[at], Join(ps[at + 1..]));
            && Parts(u.messageId) == ps[..at] && Parts(u.expiresAt) == ps[at + 1..]
            && Parts(SignaturePayload(u)) == ps[..at] + [ps[at]] + ps[at + 1..]
  {
    PartsOfJoin(ps[..at]);
    PartsOfJoin(ps[at + 1..]);
    BarFreeIsOnePart(ps[at]);
    PayloadParts(Triple(Join(ps[..at]), ps[at], Join(ps[at + 1..])));
  }

  lemma ReadAt(t: Triple, at: nat) returns (u: Triple)
    requires BarFree(t.payloadHash) && 1 <= at < |Parts(SignaturePayload(t))| - 1
    ensures SignaturePayload(u) == SignaturePayload(t) && u.payloadHash == Parts(SignaturePayload(t))[at]
    ensures |Parts(u.messageId)| == at && Parts(u.expiresAt) == Parts(SignaturePayload(t))[at + 1..]
  {
    var ps := Parts(SignaturePayload(t));
    PartsAreBarFree(SignaturePayload(t));
    u := Triple(Join(ps[..at]), ps[at], Join(ps[at + 1..]));
    JoinedParts(ps, at);
    assert ps == ps[..at] + [ps[at]] + ps[at + 1..];
    SameParts(SignaturePayload(u), SignaturePayload(t));
  }

  /** And every inner part can be so taken; the reading then has another id or another expiry, and an expiry
      with a bar in it when the part is of the id. */
  lemma InnerPartIsReading(t: Triple, g: string) returns (u: Triple)
    requires BarFree(t.payloadHash) && g in InnerParts(t)
    ensures SignaturePayload(u) == SignaturePayload(t) && u.payloadHash == g
    ensures u.messageId != t.messageId || u.expiresAt != t.expiresAt
    ensures BarFree(t.expiresAt) ==> !BarFree(u.expiresAt)
  {
    var k :| 0 <= k < |InnerParts(t)| && InnerParts(t)[k] == g;
    PayloadParts(t);
    BarFreeIsOnePart(t.payloadHash);
    BarFreeIsOnePart(t.expiresAt);
    var n := |Parts(t.messageId)|;
    u := ReadAt(t, if k < n - 1 then k + 1 else k + 2);
    BarFreeIsOnePart(u.expiresAt);
  }

  /** A bar-free text is the hash part of another reading exactly when it is an inner part. */
  lemma HashReadings(t: Triple, g: string)
    requires BarFree(t.payloadHash) && BarFree(g)
    ensures (exists u :: u != t && u.payloadHash == g && SignaturePayload(u) == SignaturePayload(t)) <==> g in InnerParts(t)
  {
    if g in InnerParts(t) {
      var u := InnerPartIsReading(t, g);
    }
    if u :| u != t && u.payloadHash == g && SignaturePayload(u) == SignaturePayload(t) {
      ReadingTakesInnerPart(t, u);
    }
  }
}
