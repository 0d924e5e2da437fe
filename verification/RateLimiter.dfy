/**
 The sliding-window rate limiter. Calls are serialised by the lock; the theorems are about runs in
 which their clock readings do not go backwards. Admissions are recorded independently of the
 buckets, so that the buckets can be compared with them.
 */
module RateLimiter {
  const WINDOW := 60.0
  const LIMIT := 200

  type Address = string
  type Buckets = map<Address, seq<real>>

  datatype Call = Call(ip: Address, now: real)
  datatype Answer = Answer(allowed: bool, remaining: nat)

  predicate Exempt(ip: Address) {
    ip in {"127.0.0.1", "::1", "localhost"}
  }

  /** [t for t in xs if t > lo] */
  function Above(xs: seq<real>, lo: real): (r: seq<real>)
    ensures |r| <= |xs|
  {
    if xs == [] then []
    else Above(xs[..|xs| - 1], lo) + if xs[|xs| - 1] > lo then [xs[|xs| - 1]] else []
  }

  function Bucket(b: Buckets, ip: Address): seq<real> {
    if ip in b then b[ip] else []
  }

  function Reply(b: Buckets, c: Call): Answer {
    if Exempt(c.ip) then Answer(true, LIMIT)
    else
      var used := |Above(Bucket(b, c.ip), c.now - WINDOW)|;
      if used >= LIMIT then Answer(false, 0) else Answer(true, LIMIT - used - 1)
  }

  function Serve(b: Buckets, c: Call): Buckets {
    if Exempt(c.ip) then b
    else
      var recent := Above(Bucket(b, c.ip), c.now - WINDOW);
      b[c.ip := if Reply(b, c).allowed then recent + [c.now] else recent]
  }

  class Limiter {
    var buckets: Buckets

    constructor ()
      ensures buckets == map[]
    {
      buckets := map[];
    }

    /** _rate_limit_ip */
    method RateLimitIp(clientIp: Address, now: real) returns (allowed: bool, remaining: nat)
      modifies this
      ensures Answer(allowed, remaining) == Reply(old(buckets), Call(clientIp, now))
      ensures buckets == Serve(old(buckets), Call(clientIp, now))
    {
      if clientIp in {"127.0.0.1", "::1", "localhost"} {
        return true, LIMIT;
      }
      if clientIp !in buckets {
        buckets := buckets[clientIp := []];
      }
      var windowStart := now - WINDOW;
      buckets := buckets[clientIp := Above(buckets[clientIp], windowStart)];
      var used := |buckets[clientIp]|;
      if LIMIT - used <= 0 {
        return false, 0;
      }
      buckets := buckets[clientIp := buckets[clientIp] + [now]];
      return true, LIMIT - used - 1;
    }
  }

  // ----- runs -----

  function After(calls: seq<Call>): Buckets {
    if calls == [] then map[] else Serve(After(calls[..|calls| - 1]), calls[|calls| - 1])
  }

  /** The answer to call k of the run. */
  function AnswerAt(calls: seq<Call>, k: nat): Answer
    requires k < |calls|
  {
    Reply(After(calls[..k]), calls[k])
  }

  /** When calls of ip were admitted. */
  function Admissions(calls: seq<Call>, ip: Address): seq<real> {
    if calls == [] then []
    else
      var n := |calls| - 1;
      Admissions(calls[..n], ip) + if calls[n].ip == ip && AnswerAt(calls, n).allowed then [calls[n].now] else []
  }

  ghost predicate ClockOrdered(calls: seq<Call>) {
    forall i, j :: 0 <= i < j < |calls| ==> calls[i].now <= calls[j].now
  }

  /** The admissions in (x, x + 60]. */
  function Within(xs: seq<real>, x: real): seq<real> {
    if xs == [] then []
    else Within(xs[..|xs| - 1], x) + if x < xs[|xs| - 1] <= x + WINDOW then [xs[|xs| - 1]] else []
  }

  lemma AfterOneMore(calls: seq<Call>, c: Call, ip: Address)
    ensures After(calls + [c]) == Serve(After(calls), c)
    ensures Admissions(calls + [c], ip) == Admissions(calls, ip) + Admitted(After(calls), c, ip)
  {
    assert (calls + [c])[..|calls|] == calls;
  }

  lemma Split(calls: seq<Call>) returns (before: seq<Call>, c: Call)
    requires calls != []
    ensures calls == before + [c] && before == calls[..|calls| - 1] && c == calls[|calls| - 1] && |before| < |calls|
    ensures ClockOrdered(calls) ==> ClockOrdered(before) && forall i :: 0 <= i < |before| ==> before[i].now <= c.now
  {
    before, c := calls[..|calls| - 1], calls[|calls| - 1];
  }

  // ----- buckets hold the recent admissions -----

  lemma {:induction false} AboveConcat(xs: seq<real>, ys: seq<real>, lo: real)
    ensures Above(xs + ys, lo) == Above(xs, lo) + Above(ys, lo)
    decreases |ys|
  {
    if ys == [] {
      assert xs + ys == xs;
    } else {
      var n := |ys| - 1;
      assert (xs + ys)[..|xs + ys| - 1] == xs + ys[..n];
      AboveConcat(xs, ys[..n], lo);
    }
  }

  lemma {:induction false} AboveTwice(xs: seq<real>, lo: real, hi: real)
    requires lo <= hi
    ensures Above(Above(xs, lo), hi) == Above(xs, hi)
  {
    if xs != [] {
      var n := |xs| - 1;
      AboveTwice(xs[..n], lo, hi);
      if xs[n] > lo {
        AboveConcat(Above(xs[..n], lo), [xs[n]], hi);
        assert Above([xs[n]], hi) == if xs[n] > hi then [xs[n]] else [] by {
          assert [xs[n]][..0] == [];
        }
      } else {
        assert Above(xs, lo) == Above(xs[..n], lo);
      }
    }
  }

  lemma PruneKeepsRecent(bucket: seq<real>, admitted: seq<real>, added: seq<real>, start: real, lo: real)
    requires start <= lo && Above(bucket, lo) == Above(admitted, lo)
    ensures Above(Above(bucket, start) + added, lo) == Above(admitted + added, lo)
  {
    AboveTwice(bucket, start, lo);
    AboveConcat(Above(bucket, start), added, lo);
    AboveConcat(admitted, added, lo);
  }

  /** What one call adds to the admissions of ip. */
  function Admitted(b: Buckets, c: Call, ip: Address): seq<real> {
    if c.ip == ip && Reply(b, c).allowed then [c.now] else []
  }

  lemma ServeKeepsRecent(b: Buckets, admitted: seq<real>, c: Call, ip: Address, lo: real)
    requires !Exempt(ip) && lo >= c.now - WINDOW && Above(Bucket(b, ip), lo) == Above(admitted, lo)
    ensures Above(Bucket(Serve(b, c), ip), lo) == Above(admitted + Admitted(b, c, ip), lo)
  {
    var added := Admitted(b, c, ip);
    if c.ip != ip {
      OtherBucket(b, c, ip);
      Nothing(admitted);
    } else {
      ServedBucket(b, c);
      PruneKeepsRecent(Bucket(b, ip), admitted, added, c.now - WINDOW, lo);
    }
  }

  lemma Nothing(xs: seq<real>)
    ensures xs + [] == xs
  {
  }

  lemma ServedBucket(b: Buckets, c: Call)
    requires !Exempt(c.ip)
    ensures Bucket(Serve(b, c), c.ip) == Above(Bucket(b, c.ip), c.now - WINDOW) + Admitted(b, c, c.ip)
  {
    Nothing(Above(Bucket(b, c.ip), c.now - WINDOW));
  }

  /** From any moment at most 60 seconds before the last call on, a bucket and the admissions of
      its address agree. */
  lemma {:induction false} BucketIsRecent(calls: seq<Call>, ip: Address, lo: real)
    requires ClockOrdered(calls) && !Exempt(ip)
    requires forall i :: 0 <= i < |calls| ==> lo >= calls[i].now - WINDOW
    ensures Above(Bucket(After(calls), ip), lo) == Above(Admissions(calls, ip), lo)
    decreases |calls|
  {
    if calls != [] {
      var before, c := Split(calls);
      BucketIsRecent(before, ip, lo);
      AfterOneMore(before, c, ip);
      ServeKeepsRecent(After(before), Admissions(before, ip), c, ip, lo);
    }
  }

  lemma OtherBucket(b: Buckets, c: Call, ip: Address)
    requires c.ip != ip
    ensures Bucket(Serve(b, c), ip) == Bucket(b, ip)
  {
  }

  lemma {:induction false} AdmissionsPast(calls: seq<Call>, ip: Address, t: real)
    requires forall i :: 0 <= i < |calls| ==> calls[i].now <= t
    ensures forall i :: 0 <= i < |Admissions(calls, ip)| ==> Admissions(calls, ip)[i] <= t
  {
    if calls != [] {
      AdmissionsPast(calls[..|calls| - 1], ip, t);
    }
  }

  lemma {:induction false} WithinIsAbove(xs: seq<real>, x: real, lo: real)
    requires lo <= x && forall i :: 0 <= i < |xs| ==> xs[i] <= lo + WINDOW
    ensures |Within(xs, x)| <= |Above(xs, lo)|
    ensures x == lo ==> Within(xs, x) == Above(xs, lo)
  {
    if xs != [] {
      WithinIsAbove(xs[..|xs| - 1], x, lo);
    }
  }

  /** What the limiter counts when it answers a call: the admissions of the last 60 seconds. */
  lemma UsedIsExact(before: seq<Call>, ip: Address, now: real)
    requires ClockOrdered(before) && !Exempt(ip) && forall i :: 0 <= i < |before| ==> before[i].now <= now
    ensures Above(Bucket(After(before), ip), now - WINDOW) == Within(Admissions(before, ip), now - WINDOW)
  {
    BucketIsRecent(before, ip, now - WINDOW);
    AdmissionsPast(before, ip, now);
    WithinIsAbove(Admissions(before, ip), now - WINDOW, now - WINDOW);
  }

  lemma LaterWindowIsSmaller(before: seq<Call>, ip: Address, now: real, x: real, used: nat)
    requires ClockOrdered(before) && !Exempt(ip) && forall i :: 0 <= i < |before| ==> before[i].now <= now
    requires used == |Above(Bucket(After(before), ip), now - WINDOW)|
    ensures x >= now - WINDOW ==> |Within(Admissions(before, ip), x)| <= used
  {
    if x >= now - WINDOW {
      BucketIsRecent(before, ip, now - WINDOW);
      AdmissionsPast(before, ip, now);
      WithinIsAbove(Admissions(before, ip), x, now - WINDOW);
    }
  }

  // ----- the limits -----

  lemma WithinOneMore(xs: seq<real>, t: real, x: real)
    ensures Within(xs + [t], x) == Within(xs, x) + if x < t <= x + WINDOW then [t] else []
  {
    assert (xs + [t])[..|xs|] == xs;
  }

  /** At most 200 admissions of an address in every window of 60 seconds, wherever it starts. */
  lemma {:induction false} WindowBound(calls: seq<Call>, ip: Address, x: real)
    requires ClockOrdered(calls) && !Exempt(ip)
    ensures |Within(Admissions(calls, ip), x)| <= LIMIT
    decreases |calls|
  {
    if calls != [] {
      var before, c := Split(calls);
      WindowBound(before, ip, x);
      WindowNext(before, c, ip, x);
    }
  }

  lemma WindowNext(before: seq<Call>, c: Call, ip: Address, x: real)
    requires ClockOrdered(before) && !Exempt(ip) && forall i :: 0 <= i < |before| ==> before[i].now <= c.now
    requires |Within(Admissions(before, ip), x)| <= LIMIT
    ensures |Within(Admissions(before + [c], ip), x)| <= LIMIT
  {
    AfterOneMore(before, c, ip);
    var used := |Above(Bucket(After(before), ip), c.now - WINDOW)|;
    LaterWindowIsSmaller(before, ip, c.now, x, used);
    WindowStep(After(before), used, Admissions(before, ip), c, ip, x);
  }

  lemma WindowStep(b: Buckets, used: nat, admitted: seq<real>, c: Call, ip: Address, x: real)
    requires !Exempt(ip) && |Within(admitted, x)| <= LIMIT
    requires used == |Above(Bucket(b, ip), c.now - WINDOW)|
    requires x >= c.now - WINDOW ==> |Within(admitted, x)| <= used
    ensures |Within(admitted + Admitted(b, c, ip), x)| <= LIMIT
  {
    WithinOneMore(admitted, c.now, x);
    assert admitted + [] == admitted;
  }

  /** A call is refused exactly if its address has had 200 admissions in the last 60 seconds;
      otherwise it is told exactly how many are left. */
  lemma AnswerIsExact(calls: seq<Call>, k: nat)
    requires ClockOrdered(calls) && k < |calls| && !Exempt(calls[k].ip)
    ensures var used := |Within(Admissions(calls[..k], calls[k].ip), calls[k].now - WINDOW)|;
      && used <= LIMIT
      && AnswerAt(calls, k) == if used == LIMIT then Answer(false, 0) else Answer(true, LIMIT - used - 1)
  {
    PrefixOrdered(calls, k);
    UsedIsExact(calls[..k], calls[k].ip, calls[k].now);
    WindowBound(calls[..k], calls[k].ip, calls[k].now - WINDOW);
  }

  lemma PrefixOrdered(calls: seq<Call>, k: nat)
    requires ClockOrdered(calls) && k < |calls|
    ensures ClockOrdered(calls[..k]) && forall i :: 0 <= i < k ==> calls[..k][i].now <= calls[k].now
  {
  }

  /** What is reported as remaining, counted again after the admission. */
  lemma RemainingIsExact(calls: seq<Call>, k: nat)
    requires ClockOrdered(calls) && k < |calls| && !Exempt(calls[k].ip) && AnswerAt(calls, k).allowed
    ensures AnswerAt(calls, k).remaining
      == LIMIT - |Within(Admissions(calls[..k + 1], calls[k].ip), calls[k].now - WINDOW)|
  {
    AnswerIsExact(calls, k);
    NextAdmissions(calls, k);
    CountsOneMore(Admissions(calls[..k], calls[k].ip), calls[k].now);
  }

  lemma NextAdmissions(calls: seq<Call>, k: nat)
    requires k < |calls| && AnswerAt(calls, k).allowed
    ensures Admissions(calls[..k + 1], calls[k].ip) == Admissions(calls[..k], calls[k].ip) + [calls[k].now]
  {
    assert calls[..k + 1] == calls[..k] + [calls[k]];
    AfterOneMore(calls[..k], calls[k], calls[k].ip);
  }

  lemma CountsOneMore(admitted: seq<real>, now: real)
    ensures |Within(admitted + [now], now - WINDOW)| == |Within(admitted, now - WINDOW)| + 1
  {
    WithinOneMore(admitted, now, now - WINDOW);
  }

  // ----- the answers in terms of earlier answers -----

  /** Call i admitted the address within the 60 seconds after x. */
  ghost predicate AdmittedAt(calls: seq<Call>, ip: Address, x: real, i: nat) {
    i < |calls| && calls[i].ip == ip && AnswerAt(calls, i).allowed && x < calls[i].now <= x + 60.0
  }

  ghost function Those(p: nat -> bool, n: nat): set<nat> {
    set i: nat | i < n && p(i)
  }

  lemma ThoseNext(p: nat -> bool, n: nat)
    ensures |Those(p, n + 1)| == |Those(p, n)| + if p(n) then 1 else 0
  {
    if p(n) {
      assert Those(p, n + 1) == Those(p, n) + {n};
    } else {
      assert Those(p, n + 1) == Those(p, n);
    }
  }

  /** The calls before n that admitted the address within the 60 seconds after x. */
  ghost function AdmittedIn(calls: seq<Call>, n: nat, ip: Address, x: real): set<nat> {
    Those((i: nat) => AdmittedAt(calls, ip, x, i), n)
  }

  lemma AdmittedNext(calls: seq<Call>, n: nat, ip: Address, x: real)
    ensures |AdmittedIn(calls, n + 1, ip, x)| == |AdmittedIn(calls, n, ip, x)| + if AdmittedAt(calls, ip, x, n) then 1 else 0
  {
    ThoseNext((i: nat) => AdmittedAt(calls, ip, x, i), n);
  }

  lemma AdmissionsNext(calls: seq<Call>, n: nat, ip: Address)
    requires n < |calls|
    ensures Admissions(calls[..n + 1], ip)
      == Admissions(calls[..n], ip) + if calls[n].ip == ip && AnswerAt(calls, n).allowed then [calls[n].now] else []
  {
    assert calls[..n + 1] == calls[..n] + [calls[n]];
    AfterOneMore(calls[..n], calls[n], ip);
  }

  lemma {:induction false} AdmissionsCounted(calls: seq<Call>, n: nat, ip: Address, x: real)
    requires n <= |calls|
    ensures |Within(Admissions(calls[..n], ip), x)| == |AdmittedIn(calls, n, ip, x)|
  {
    if n == 0 {
      assert AdmittedIn(calls, 0, ip, x) == {};
    } else {
      AdmissionsCounted(calls, n - 1, ip, x);
      AdmittedNext(calls, n - 1, ip, x);
      AdmissionsNext(calls, n - 1, ip);
      var admitted := Admissions(calls[..n - 1], ip);
      WithinOneMore(admitted, calls[n - 1].now, x);
      assert admitted + [] == admitted;
    }
  }

  /** A call from this machine is always allowed. Any other is refused exactly if its address was
      admitted 200 times in the 60 seconds up to it, and is otherwise told what is left of 200. */
  lemma EveryAnswer(calls: seq<Call>, k: nat)
    requires ClockOrdered(calls) && k < |calls|
    ensures var c := calls[k];
      if c.ip == "127.0.0.1" || c.ip == "::1" || c.ip == "localhost" then AnswerAt(calls, k) == Answer(true, 200)
      else
        var n := |AdmittedIn(calls, k, c.ip, c.now - 60.0)|;
        n <= 200 && AnswerAt(calls, k) == if n == 200 then Answer(false, 0) else Answer(true, 199 - n)
  {
    if !Exempt(calls[k].ip) {
      AnswerIsExact(calls, k);
      AdmissionsCounted(calls, k, calls[k].ip, calls[k].now - 60.0);
    }
  }

  // ----- addresses do not affect each other -----

  function Only(calls: seq<Call>, ip: Address): seq<Call> {
    if calls == [] then []
    else Only(calls[..|calls| - 1], ip) + if calls[|calls| - 1].ip == ip then [calls[|calls| - 1]] else []
  }

  /** Bucket and admissions of an address are those of its own calls alone, clock order or not. */
  lemma {:induction false} Independent(calls: seq<Call>, ip: Address)
    ensures Bucket(After(calls), ip) == Bucket(After(Only(calls, ip)), ip)
    ensures Admissions(calls, ip) == Admissions(Only(calls, ip), ip)
    decreases |calls|
  {
    if calls != [] {
      var before, c := Split(calls);
      Independent(before, ip);
      AfterOneMore(before, c, ip);
      if c.ip == ip {
        AfterOneMore(Only(before, ip), c, ip);
        SameReply(After(before), After(Only(before, ip)), c);
      } else {
        OtherBucket(After(before), c, ip);
        assert Only(calls, ip) == Only(before, ip);
      }
    }
  }

  lemma SameReply(a: Buckets, b: Buckets, c: Call)
    requires Bucket(a, c.ip) == Bucket(b, c.ip)
    ensures Reply(a, c) == Reply(b, c) && Bucket(Serve(a, c), c.ip) == Bucket(Serve(b, c), c.ip)
  {
  }
}
