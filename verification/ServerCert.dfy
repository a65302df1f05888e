/**
 The keyserver's own certificate (platform/keysystem/keyserver/keyapi/api.go): signed on demand,
 cached, and replaced shortly before it ends.

 Times are in nanoseconds.  A signed certificate stores its end time in whole seconds.  CertLock
 makes concurrent calls follow one another, so a run is a sequence of calls under a clock that never
 goes back.
 */
module ServerCert {
  import opened Wrappers
  import opened Accounts

  const RENEWAL_MARGIN := 300 * SECOND
  const VALIDITY_INTERVAL := 24 * HOUR

  // The least time between two signings, allowing for the lost fraction of a second.
  const SPACING := VALIDITY_INTERVAL - RENEWAL_MARGIN - SECOND

  // How far a signing got: Kept is the normal case.  NotSigned fails before or in Sign, NotKept after it.
  datatype Signing = NotSigned | NotKept | Kept

  // checkedAt and issueAt are the two clock readings of a call.
  datatype Call = Call(checkedAt: int, issueAt: int, signing: Signing)

  function NotAfter(issueAt: int): int {
    WholeSeconds(issueAt + VALIDITY_INTERVAL)
  }

  predicate StillGood(cached: Option<int>, now: int) {
    cached.Some? && now + RENEWAL_MARGIN < cached.value
  }

  class ConfiguredKeyserver {
    // End of validity of the cached certificate.
    var serverCert: Option<int>

    constructor ()
      ensures serverCert == None
    {
      serverCert := None;
    }

    method GetValidServerCert(call: Call) returns (cert: Option<int>)
      modifies this
      ensures serverCert == Cached(old(serverCert), call)
      ensures cert == Returned(old(serverCert), call)
    {
      if serverCert.Some? && call.checkedAt + RENEWAL_MARGIN < serverCert.value {
        return serverCert;
      }
      if call.signing != Kept {
        return None;
      }
      serverCert := Some(NotAfter(call.issueAt));
      return serverCert;
    }
  }

  function Cached(cached: Option<int>, call: Call): Option<int> {
    if !StillGood(cached, call.checkedAt) && call.signing == Kept then Some(NotAfter(call.issueAt)) else cached
  }

  function Returned(cached: Option<int>, call: Call): Option<int> {
    if StillGood(cached, call.checkedAt) then cached
    else if call.signing == Kept then Some(NotAfter(call.issueAt)) else None
  }

  // The cache before call number n of a run.
  function CacheBefore(calls: seq<Call>, n: nat): Option<int>
    requires n <= |calls|
  {
    if n == 0 then None else Cached(CacheBefore(calls, n - 1), calls[n - 1])
  }

  predicate ClockRuns(calls: seq<Call>) {
    && (forall i | 0 <= i < |calls| :: calls[i].checkedAt <= calls[i].issueAt)
    && forall i, j | 0 <= i < j < |calls| :: calls[i].issueAt <= calls[j].checkedAt
  }

  // The cluster authority's key is used in this call.
  predicate Signs(calls: seq<Call>, n: nat)
    requires n < |calls|
  {
    !StillGood(CacheBefore(calls, n), calls[n].checkedAt) && calls[n].signing != NotSigned
  }

  predicate Keeps(calls: seq<Call>, n: nat)
    requires n < |calls|
  {
    !StillGood(CacheBefore(calls, n), calls[n].checkedAt) && calls[n].signing == Kept
  }

  /** Every certificate handed out has more than the margin left when the call decided on it. */
  lemma MarginIsKept(calls: seq<Call>, n: nat)
    requires ClockRuns(calls) && n < |calls|
    ensures match Returned(CacheBefore(calls, n), calls[n])
            case None => true
            case Some(notAfter) => notAfter > calls[n].checkedAt + RENEWAL_MARGIN
  {
  }

  lemma {:induction false} CachedSince(calls: seq<Call>, i: nat, j: nat)
    requires ClockRuns(calls) && i < j <= |calls| && Keeps(calls, i)
    ensures CacheBefore(calls, j).Some? && CacheBefore(calls, j).value >= NotAfter(calls[i].issueAt)
  {
    if j > i + 1 {
      CachedSince(calls, i, j - 1);
    }
  }

  /** After a signing that is kept, any later signing, kept or not, comes at least SPACING later. */
  lemma SigningsAreSpaced(calls: seq<Call>, i: nat, j: nat)
    requires ClockRuns(calls) && i < j < |calls| && Keeps(calls, i) && Signs(calls, j)
    ensures calls[j].checkedAt > calls[i].issueAt + SPACING
  {
    CachedSince(calls, i, j);
  }

  /**
   A signing whose certificate is lost afterwards is not spaced from the next: soon after a signing,
   the next call signs again exactly if the first one was not kept (and the next does not fail first).
   */
  lemma LostCertificatesAreSignedAgain(calls: seq<Call>, i: nat)
    requires ClockRuns(calls) && i + 1 < |calls| && Signs(calls, i)
    requires calls[i + 1].checkedAt <= calls[i].issueAt + SPACING
    requires calls[i + 1].signing != NotSigned
    ensures Signs(calls, i + 1) <==> !Keeps(calls, i)
  {
    assert CacheBefore(calls, i + 1) == Cached(CacheBefore(calls, i), calls[i]);
  }

  /** Two calls a second apart, the first of which loses its certificate: both sign, and only the second returns one. */
  lemma TwoSignings()
    ensures var calls := [Call(0, 0, NotKept), Call(SECOND, SECOND, Kept)];
            && ClockRuns(calls) && calls[1].checkedAt <= calls[0].issueAt + SPACING
            && Signs(calls, 0) && Signs(calls, 1)
            && Returned(CacheBefore(calls, 0), calls[0]) == None && Returned(CacheBefore(calls, 1), calls[1]).Some?
  {
    LostCertificatesAreSignedAgain([Call(0, 0, NotKept), Call(SECOND, SECOND, Kept)], 0);
  }

  // How many certificates were signed and kept in calls from..to.
  function Signings(calls: seq<Call>, from: nat, to: nat): nat
    requires from <= to <= |calls|
  {
    if from == to then 0 else Signings(calls, from, to - 1) + if Keeps(calls, to - 1) then 1 else 0
  }

  /** Rate: n signings that are kept take more than (n - 1) times SPACING. */
  lemma {:induction false} SigningRate(calls: seq<Call>, first: nat, last: nat)
    requires ClockRuns(calls) && first <= last < |calls|
    requires Keeps(calls, first) && Keeps(calls, last)
    ensures calls[last].issueAt - calls[first].issueAt >= (Signings(calls, first, last + 1) - 1) * SPACING
  {
    var n := Signings(calls, first, last);
    assert Signings(calls, first, last + 1) == n + 1;
    if first < last {
      var previous := PreviousKept(calls, first, last);
      SigningRate(calls, first, previous);
      SigningsAreSpaced(calls, previous, last);
      assert (n - 1) * SPACING + SPACING == n * SPACING;
    }
  }

  lemma {:induction false} PreviousKept(calls: seq<Call>, first: nat, last: nat) returns (p: nat)
    requires first < last <= |calls| && Keeps(calls, first)
    ensures first <= p < last && Keeps(calls, p)
    ensures Signings(calls, first, p + 1) == Signings(calls, first, last)
  {
    p := last - 1;
    if !Keeps(calls, p) {
      p := PreviousKept(calls, first, last - 1);
    }
  }

  /**
   Each call, exactly: while more than five minutes are left the cached certificate is returned and nothing is signed;
   otherwise a signing that succeeds is cached, returned and good for a day, in whole seconds; and one that fails leaves
   the cache as it was.
   */
  lemma CallExactly(calls: seq<Call>, n: nat)
    requires n < |calls|
    ensures var cached, call := CacheBefore(calls, n), calls[n];
            var good := cached.Some? && call.checkedAt + 5 * 60 * SECOND < cached.value;
            && (good ==> Returned(cached, call) == cached && CacheBefore(calls, n + 1) == cached && !Signs(calls, n))
            && (!good ==> (Signs(calls, n) <==> call.signing != NotSigned))
            && (!good && call.signing == Kept ==>
                  var notAfter := call.issueAt + 24 * 60 * 60 * SECOND;
                  Returned(cached, call) == CacheBefore(calls, n + 1) == Some(notAfter - notAfter % SECOND))
            && (!good && call.signing != Kept ==> Returned(cached, call) == None && CacheBefore(calls, n + 1) == cached)
  {
    assert CacheBefore(calls, n + 1) == Cached(CacheBefore(calls, n), calls[n]);
  }
}
