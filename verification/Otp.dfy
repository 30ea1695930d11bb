/** One-time passwords: the provider's pending map against the history of calls. */
module OtpSpec {
  import opened Options

  const OTP_TTL_MS := 5 * 60 * 1000
  const MAX_ATTEMPTS := 5

  datatype PendingOtp = PendingOtp(code: string, expiresAt: int, attempts: nat)

  /** A call and the time it was made; the code of a request is the random one. */
  datatype Call = Request(phone: string, code: string, at: int) | Verify(phone: string, code: string, at: int)

  type Pending = map<string, PendingOtp>

  function Step(p: Pending, c: Call): (Pending, bool) {
    if c.Request? then (p[c.phone := PendingOtp(c.code, c.at + OTP_TTL_MS, 0)], false)
    else if c.phone !in p then (p, false)
    else
      var entry := p[c.phone];
      if c.at > entry.expiresAt || entry.attempts >= MAX_ATTEMPTS then (p - {c.phone}, false)
      else if entry.code == c.code then (p - {c.phone}, true)
      else (p[c.phone := entry.(attempts := entry.attempts + 1)], false)
  }

  function After(h: seq<Call>): Pending {
    if h == [] then map[] else Step(After(h[..|h| - 1]), h[|h| - 1]).0
  }

  /** What the last call of a history returned. */
  function Returned(h: seq<Call>): bool
    requires h != []
  {
    Step(After(h[..|h| - 1]), h[|h| - 1]).1
  }

  ghost predicate Chronological(h: seq<Call>) {
    forall i, j :: 0 <= i < j < |h| ==> h[i].at <= h[j].at
  }

  // ----- the specification, by history alone -----

  /** The latest request for a number. */
  function LastRequest(h: seq<Call>, phone: string): (r: Option<nat>)
    ensures r.Some? ==> r.value < |h| && h[r.value].Request? && h[r.value].phone == phone
  {
    if h == [] then None
    else
      var c := h[|h| - 1];
      if c.Request? && c.phone == phone then Some(|h| - 1) else LastRequest(h[..|h| - 1], phone)
  }

  /** How often a number was verified since its latest request. */
  function Tries(h: seq<Call>, phone: string): nat {
    if h == [] then 0
    else
      var c := h[|h| - 1];
      if c.phone != phone then Tries(h[..|h| - 1], phone)
      else if c.Request? then 0
      else Tries(h[..|h| - 1], phone) + 1
  }

  /** Whether a verification has succeeded since the latest request. */
  ghost predicate Used(h: seq<Call>, phone: string)
    decreases |h|, 1
  {
    h != []
    && (var c := h[|h| - 1];
        if c.phone != phone then Used(h[..|h| - 1], phone)
        else c.Verify? && (Granted(h) || Used(h[..|h| - 1], phone)))
  }

  /** The last call deserves to succeed: the latest request carried this code, no more than five minutes
      have passed, nothing has succeeded since, and fewer than five verifications were made since. */
  ghost predicate Granted(h: seq<Call>)
    requires h != []
    decreases |h|, 0
  {
    var c, before := h[|h| - 1], h[..|h| - 1];
    c.Verify?
    && var r := LastRequest(before, c.phone);
       r.Some? && before[r.value].code == c.code && c.at <= before[r.value].at + 5 * 60_000
       && Tries(before, c.phone) < 5 && !Used(before, c.phone)
  }

  /** What the map knows about a number. */
  ghost predicate Known(h: seq<Call>, p: Pending, phone: string) {
    var r := LastRequest(h, phone);
    if phone in p then
      r.Some? && p[phone] == PendingOtp(h[r.value].code, h[r.value].at + OTP_TTL_MS, Tries(h, phone)) && !Used(h, phone)
    else
      r.None? || Used(h, phone) || Tries(h, phone) >= MAX_ATTEMPTS
      || (exists i :: r.value <= i < |h| && h[i].at > h[r.value].at + OTP_TTL_MS)
  }

  lemma KnownStep(h: seq<Call>, c: Call, phone: string)
    requires Chronological(h + [c]) && Known(h, After(h), phone)
    requires c.phone == phone ==> (Step(After(h), c).1 <==> Granted(h + [c]))
    ensures Known(h + [c], After(h + [c]), phone)
  {
    var h' := h + [c];
    assert h'[..|h|] == h;
    var r := LastRequest(h, phone);
    if r.Some? { assert h'[r.value] == h[r.value]; }
    if phone !in After(h) && r.Some? && !Used(h, phone) && Tries(h, phone) < MAX_ATTEMPTS {
      var i :| r.value <= i < |h| && h[i].at > h[r.value].at + OTP_TTL_MS;
      assert h'[i] == h[i];
    }
    if c.phone == phone && c.Verify? && phone in After(h) && c.at > After(h)[phone].expiresAt {
      assert h'[|h|].at > h'[r.value].at + OTP_TTL_MS;
    }
  }

  lemma VerifyIsGranted(h: seq<Call>, c: Call)
    requires Chronological(h + [c]) && Known(h, After(h), c.phone)
    ensures Step(After(h), c).1 <==> Granted(h + [c])
  {
    var h' := h + [c];
    assert h'[..|h|] == h && h'[|h|] == c;
    var r := LastRequest(h, c.phone);
    if c.Verify? && c.phone !in After(h) && r.Some? && !Used(h, c.phone) && Tries(h, c.phone) < MAX_ATTEMPTS {
      var i :| r.value <= i < |h| && h[i].at > h[r.value].at + OTP_TTL_MS;
      assert h'[i].at <= h'[|h|].at && h'[i] == h[i];
    }
  }

  lemma {:induction false} MapFollowsHistory(h: seq<Call>, phone: string)
    requires Chronological(h)
    ensures Known(h, After(h), phone)
    decreases |h|
  {
    if h != [] {
      var g, c := h[..|h| - 1], h[|h| - 1];
      assert g + [c] == h;
      MapFollowsHistory(g, phone);
      MapFollowsHistory(g, c.phone);
      VerifyIsGranted(g, c);
      KnownStep(g, c, phone);
    }
  }

  /** The provider's state refines its history: over any calls for any numbers with a clock that never goes
      back, a verification returns true exactly when the history grants it. */
  lemma OtpRefinesHistory(h: seq<Call>)
    requires Chronological(h) && h != []
    ensures Returned(h) <==> Granted(h)
  {
    var g, c := h[..|h| - 1], h[|h| - 1];
    assert g + [c] == h;
    MapFollowsHistory(g, c.phone);
    VerifyIsGranted(g, c);
  }

  /** Once a code was accepted, nothing succeeds for that number until it is requested again. */
  lemma SingleUse(h: seq<Call>, more: seq<Call>)
    requires Chronological(h + more) && h != [] && more != [] && Returned(h)
    requires forall c :: c in more ==> !(c.Request? && c.phone == h[|h| - 1].phone)
    requires more[|more| - 1].phone == h[|h| - 1].phone
    ensures !Returned(h + more)
  {
    var all, phone := h + more, h[|h| - 1].phone;
    assert Chronological(h) by { assert forall i :: 0 <= i < |h| ==> h[i] == all[i]; }
    OtpRefinesHistory(h);
    var before := more[..|more| - 1];
    StaysUsed(h, before, phone);
    assert all[..|all| - 1] == h + before && all[|all| - 1] == more[|more| - 1];
    OtpRefinesHistory(all);
  }

  lemma {:induction false} StaysUsed(h: seq<Call>, more: seq<Call>, phone: string)
    requires h != [] && h[|h| - 1].phone == phone && Granted(h)
    requires forall c :: c in more ==> !(c.Request? && c.phone == phone)
    ensures Used(h + more, phone)
    decreases |more|
  {
    if more == [] {
      assert h + more == h;
    } else {
      var n := |more| - 1;
      StaysUsed(h, more[..n], phone);
      assert (h + more)[..|h + more| - 1] == h + more[..n];
      assert (h + more)[|h + more| - 1] == more[n] && more[n] in more;
    }
  }
}

module OtpProvider {
  import opened OtpSpec

  class MockOtpProvider {
    var pending: map<string, PendingOtp>
    ghost var history: seq<Call>

    ghost predicate Valid()
      reads this
    {
      pending == After(history)
    }

    constructor ()
      ensures Valid() && history == []
    {
      pending, history := map[], [];
    }

    /** `code` is the random code, `now` the clock. */
    method RequestOtp(phoneNumber: string, code: string, now: int)
      requires Valid()
      modifies this
      ensures Valid() && history == old(history) + [Request(phoneNumber, code, now)]
    {
      pending := pending[phoneNumber := PendingOtp(code, now + OTP_TTL_MS, 0)];
      history := history + [Request(phoneNumber, code, now)];
      assert history[..|history| - 1] == old(history);
    }

    method VerifyOtp(phoneNumber: string, code: string, now: int) returns (ok: bool)
      requires Valid() && Chronological(history + [Verify(phoneNumber, code, now)])
      modifies this
      ensures Valid() && history == old(history) + [Verify(phoneNumber, code, now)]
      ensures ok <==> Granted(history)
    {
      history := history + [Verify(phoneNumber, code, now)];
      assert history[..|history| - 1] == old(history);
      OtpRefinesHistory(history);
      if phoneNumber !in pending {
        return false;
      }
      var entry := pending[phoneNumber];
      if now > entry.expiresAt {
        pending := pending - {phoneNumber};
        return false;
      }
      if entry.attempts >= MAX_ATTEMPTS {
        pending := pending - {phoneNumber};
        return false;
      }
      entry := entry.(attempts := entry.attempts + 1);
      ok := entry.code == code;
      pending := if ok then pending - {phoneNumber} else pending[phoneNumber := entry];
    }
  }
}
