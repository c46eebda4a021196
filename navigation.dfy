/** The navigation helpers `safeNavigate` and `safePush`: a route change that is
    retried, after 100 ms and then after 200 ms, when the router throws because
    it is not mounted yet. The router is an oracle telling whether each attempt
    returns normally, and time is the list of waits the helper schedules. */
module Navigation {

  /** A route handed to the router: its path and its query parameters, kept
      as unencoded name/value pairs. */
  datatype Route = Route(path: string, query: seq<(string, string)>)

  /** A route without query parameters. */
  function Path(p: string): Route {
    Route(p, [])
  }

  /** A navigation a screen asks for: `safeNavigate(route, delay)` or
      `safePush(route)`. */
  datatype NavRequest = Navigate(route: Route, delay: int) | PushTo(route: Route)

  /** One call into the router. */
  datatype RouterCall = Replace(route: Route) | Push(route: Route)

  /** What the helper waits for before an attempt. */
  datatype Wait = Timeout(ms: int) | AnimationFrame

  const MaxAttempts := 3

  /** The timeouts before the second and the third attempt. */
  const RetryDelays: seq<int> := [100, 200]

  /** The waits scheduled before retries 1..n. */
  function RetryWaits(n: nat): (w: seq<Wait>)
    requires n <= |RetryDelays|
  {
    seq(n, i requires 0 <= i < n => Timeout(RetryDelays[i]))
  }

  /** The waits before the first attempt: the optional initial delay, then one
      animation frame. */
  function InitialWaits(delay: int): seq<Wait> {
    if delay > 0 then [Timeout(delay), AnimationFrame] else [AnimationFrame]
  }

  /** The total time spent in timeouts. */
  function TotalDelay(waits: seq<Wait>): int {
    if waits == [] then 0
    else (if waits[0].Timeout? then waits[0].ms else 0) + TotalDelay(waits[1..])
  }

  /** The retry loop shared by both helpers. `succeeds(i)` says whether attempt
      `i` (counting from 0) returns normally. The same call is made at most three
      times, never again after one succeeds, with the fixed retry waits in
      between; after three failures the error is only logged. */
  method Attempts(call: RouterCall, succeeds: nat -> bool)
    returns (calls: seq<RouterCall>, waits: seq<Wait>, failureLogged: bool)
    ensures 1 <= |calls| <= MaxAttempts
    ensures forall i :: 0 <= i < |calls| ==> calls[i] == call
    ensures forall i :: 0 <= i < |calls| - 1 ==> !succeeds(i)
    ensures |calls| < MaxAttempts ==> succeeds(|calls| - 1)
    ensures waits == RetryWaits(|calls| - 1)
    ensures failureLogged <==> forall i :: 0 <= i < MaxAttempts ==> !succeeds(i)
  {
    calls, waits := [call], [];
    var ok := succeeds(0);
    var attempt := 1;
    while !ok && attempt < MaxAttempts
      invariant 1 <= attempt <= MaxAttempts
      invariant |calls| == attempt
      invariant forall i :: 0 <= i < |calls| ==> calls[i] == call
      invariant forall i :: 0 <= i < attempt - 1 ==> !succeeds(i)
      invariant ok == succeeds(attempt - 1)
      invariant waits == RetryWaits(attempt - 1)
    {
      waits := waits + [Timeout(RetryDelays[attempt - 1])];
      calls := calls + [call];
      ok := succeeds(attempt);
      attempt := attempt + 1;
    }
    failureLogged := !ok;
  }

  /** `safeNavigate(path, delay)`: attempts of `router.replace(path)`. */
  method SafeNavigate(route: Route, delay: int, succeeds: nat -> bool)
    returns (calls: seq<RouterCall>, waits: seq<Wait>, failureLogged: bool)
    ensures 1 <= |calls| <= MaxAttempts
    ensures forall i :: 0 <= i < |calls| ==> calls[i] == Replace(route)
    ensures forall i :: 0 <= i < |calls| - 1 ==> !succeeds(i)
    ensures |calls| < MaxAttempts ==> succeeds(|calls| - 1)
    ensures waits == InitialWaits(delay) + RetryWaits(|calls| - 1)
    ensures failureLogged <==> forall i :: 0 <= i < MaxAttempts ==> !succeeds(i)
  {
    var retryWaits;
    calls, retryWaits, failureLogged := Attempts(Replace(route), succeeds);
    waits := InitialWaits(delay) + retryWaits;
  }

  /** `safePush(path)`: attempts of `router.push(path)`, after one animation
      frame and no initial delay. */
  method SafePush(route: Route, succeeds: nat -> bool)
    returns (calls: seq<RouterCall>, waits: seq<Wait>, failureLogged: bool)
    ensures 1 <= |calls| <= MaxAttempts
    ensures forall i :: 0 <= i < |calls| ==> calls[i] == Push(route)
    ensures forall i :: 0 <= i < |calls| - 1 ==> !succeeds(i)
    ensures |calls| < MaxAttempts ==> succeeds(|calls| - 1)
    ensures waits == [AnimationFrame] + RetryWaits(|calls| - 1)
    ensures failureLogged <==> forall i :: 0 <= i < MaxAttempts ==> !succeeds(i)
  {
    var retryWaits;
    calls, retryWaits, failureLogged := Attempts(Push(route), succeeds);
    waits := [AnimationFrame] + retryWaits;
  }

  /** When the first two attempts fail, the third one still runs, 300 ms of
      timeouts after the first. */
  lemma ThirdAttemptAfter300(succeeds: nat -> bool, calls: seq<RouterCall>, waits: seq<Wait>)
    requires !succeeds(0) && !succeeds(1)
    requires 1 <= |calls| <= MaxAttempts
    requires forall i :: 0 <= i < |calls| - 1 ==> !succeeds(i)
    requires |calls| < MaxAttempts ==> succeeds(|calls| - 1)
    requires waits == RetryWaits(|calls| - 1)
    ensures |calls| == MaxAttempts && TotalDelay(waits) == 300
  {
    assert waits == [Timeout(100), Timeout(200)];
    assert TotalDelay(waits[1..]) == 200;
  }
}
