/**
 * Polling for a device token (`pollForDeviceToken`, cli/src/cli/auth.ts;
 * section 3.5 of RFC 8628). The server answers anything, and requests and
 * sleeps take as long as they like; times are in milliseconds.
 */
module DeviceLogin {
  import opened Common

  type Delay = d: real | d >= 0.0
  type Positive = d: real | d > 0.0 witness 1.0

  /** What the token endpoint sends back, as far as it decodes. */
  datatype Response = Unreachable | Response(status: int, token: Option<string>, error: Option<string>)

  /** One round's environment: the answer, how long it took, and how much longer than asked the sleep was. */
  datatype Round = Round(response: Response, latency: Delay, oversleep: Delay)

  type World = nat -> Round

  datatype Outcome = Token(token: string) | Refused(reason: string) | RequestFailure

  /** A token request: when it was sent, under which interval, and its answer. */
  datatype Request = Request(at: real, interval: Positive, response: Response)

  const EXPIRED: Outcome := Refused("expired_token")

  const SLOW_DOWN_STEP: Positive := 5000.0

  // ---------------------------------------------------------------- the answer

  datatype Verdict = Stop(outcome: Outcome) | Pending | SlowDown

  function Judge(r: Response): Verdict {
    match r
    case Unreachable => Stop(RequestFailure)
    case Response(status, token, error) =>
      if 200 <= status < 300 then Stop(if token.Some? then Token(token.value) else RequestFailure)
      else if error == Some("access_denied") || error == Some("expired_token") then Stop(Refused(error.value))
      else if error == Some("authorization_pending") then Pending
      else if error == Some("slow_down") then SlowDown
      else Stop(RequestFailure)
  }

  function NextInterval(interval: Positive, r: Response): (next: Positive)
    ensures next >= interval
  {
    if Judge(r).SlowDown? then interval + SLOW_DOWN_STEP else interval
  }

  // ---------------------------------------------------------------- polling

  /** How many whole intervals fit before the deadline. */
  function Rounds(now: real, deadline: real, interval: Positive): nat {
    if now >= deadline then 0 else ((deadline - now) / interval).Floor + 1
  }

  lemma QuotientShrinks(left: real, interval: Positive, next: Positive, left': real)
    requires next >= interval && 0.0 < left' <= left - next
    ensures left' / next + 1.0 <= left / interval
  {
    var whole := left' / next + 1.0;
    NonNegativeQuotient(left', next);
    assert whole * next == left' + next;
    ShorterIntervals(whole, interval, next);
    AtMostQuotient(whole, left, interval);
  }

  lemma NonNegativeQuotient(a: real, b: Positive)
    requires a >= 0.0
    ensures a / b >= 0.0
  {
  }

  lemma AtMostQuotient(n: real, left: real, interval: Positive)
    requires n * interval <= left
    ensures n <= left / interval
  {
  }

  lemma BelowQuotient(n: real, left: real, interval: Positive)
    requires n * interval < left
    ensures n < left / interval
  {
  }

  lemma ShorterIntervals(n: real, interval: Positive, next: Positive)
    requires n >= 0.0 && interval <= next
    ensures n * interval <= n * next
  {
  }

  lemma RoundsShrink(now: real, deadline: real, interval: Positive, next: Positive, later: real)
    requires next >= interval && later >= now + next && now < deadline
    ensures Rounds(later, deadline, next) < Rounds(now, deadline, interval)
  {
    NonNegativeQuotient(deadline - now, interval);
    if later < deadline {
      QuotientShrinks(deadline - now, interval, next, deadline - later);
      NonNegativeQuotient(deadline - later, next);
    }
  }

  /** `pollForDeviceToken`, in round `k` of the world, with the requests it sends. */
  function Poll(world: World, k: nat, now: real, deadline: real, interval: Positive): (r: (Outcome, seq<Request>))
    decreases Rounds(now, deadline, interval)
  {
    if now >= deadline then (EXPIRED, [])
    else
      var response := world(k).response;
      var sent := Request(now, interval, response);
      var verdict := Judge(response);
      if verdict.Stop? then (verdict.outcome, [sent])
      else
        var next := NextInterval(interval, response);
        if now + next >= deadline then (EXPIRED, [sent])
        else
          var later := now + world(k).latency + next + world(k).oversleep;
          RoundsShrink(now, deadline, interval, next, later);
          var (outcome, rest) := Poll(world, k + 1, later, deadline, next);
          (outcome, [sent] + rest)
  }

  /** The device code's terms: lifetime and optional interval in seconds. */
  datatype Terms = Terms(expiresIn: Positive, interval: Option<Positive>)

  function StartInterval(terms: Terms): Positive {
    (if terms.interval.Some? then terms.interval.value else 5.0) * 1000.0
  }

  /** `completeDeviceLogin` after the code was shown; polling begins `delay` after the clock was read. */
  function Login(world: World, terms: Terms, startedAt: real, delay: Delay): (Outcome, seq<Request>) {
    Poll(world, 0, startedAt + delay, startedAt + terms.expiresIn * 1000.0, StartInterval(terms))
  }

  // ---------------------------------------------------------------- what an answer says

  predicate Succeeded(r: Response) {
    r.Response? && 200 <= r.status <= 299
  }

  predicate Says(r: Response, error: string) {
    r.Response? && !Succeeded(r) && r.error == Some(error)
  }

  /** The two answers that keep a client polling (section 3.5 of RFC 8628). */
  predicate AsksToGoOn(r: Response) {
    Says(r, "authorization_pending") || Says(r, "slow_down")
  }

  /** What an answer that ends the polling ends it with. */
  ghost predicate EndsWith(r: Response, outcome: Outcome) {
    && !AsksToGoOn(r)
    && (forall token :: outcome == Token(token) <==> Succeeded(r) && r.token == Some(token))
    && (forall reason :: outcome == Refused(reason) <==>
          Says(r, reason) && (reason == "access_denied" || reason == "expired_token"))
  }

  lemma JudgedAsSaid(r: Response)
    ensures Judge(r).Stop? <==> !AsksToGoOn(r)
    ensures Judge(r).SlowDown? <==> Says(r, "slow_down")
    ensures Judge(r).Stop? ==> EndsWith(r, Judge(r).outcome)
  {
  }

  // ---------------------------------------------------------------- every run

  function SlowDowns(requests: seq<Request>): nat {
    if requests == [] then 0
    else (if Says(requests[0].response, "slow_down") then 1 else 0) + SlowDowns(requests[1..])
  }

  /** Request `j`: its interval is the start plus 5 s for each `slow_down` before it. */
  lemma {:induction false} IntervalCountsSlowDowns(
    world: World, k: nat, now: real, deadline: real, interval: Positive, j: nat)
    requires j < |Poll(world, k, now, deadline, interval).1|
    ensures var requests := Poll(world, k, now, deadline, interval).1;
            requests[j].interval == interval + SLOW_DOWN_STEP * SlowDowns(requests[..j]) as real
    decreases j
  {
    var requests := Poll(world, k, now, deadline, interval).1;
    if j > 0 {
      JudgedAsSaid(world(k).response);
      var next := NextInterval(interval, world(k).response);
      var later := now + world(k).latency + next + world(k).oversleep;
      IntervalCountsSlowDowns(world, k + 1, later, deadline, next, j - 1);
      assert requests[..j][1..] == requests[1..][..j - 1];
      assert requests[1..] == Poll(world, k + 1, later, deadline, next).1;
    }
  }

  /**
   * Request `j` is sent before the deadline, and its own interval, the time
   * the answer took and what the sleep overran after the request before it.
   */
  lemma {:induction false} RequestsAreSpaced(
    world: World, k: nat, now: real, deadline: real, interval: Positive, j: nat)
    requires j < |Poll(world, k, now, deadline, interval).1|
    ensures var requests := Poll(world, k, now, deadline, interval).1;
            && requests[j].at < deadline
            && requests[0].at == now
            && (j > 0 ==> requests[j].at == requests[j - 1].at + requests[j].interval
                                            + world(k + j - 1).latency + world(k + j - 1).oversleep)
    decreases j
  {
    var requests := Poll(world, k, now, deadline, interval).1;
    if j > 0 {
      var next := NextInterval(interval, world(k).response);
      var later := now + world(k).latency + next + world(k).oversleep;
      RequestsAreSpaced(world, k + 1, later, deadline, next, j - 1);
      assert requests[1..] == Poll(world, k + 1, later, deadline, next).1;
      IntervalCountsSlowDowns(world, k + 1, later, deadline, next, 0);
    }
  }

  /** Request `j` gets the world's answer `j`, and every answer but the last asks to go on. */
  lemma {:induction false} AnswersInOrder(world: World, k: nat, now: real, deadline: real, interval: Positive, j: nat)
    requires j < |Poll(world, k, now, deadline, interval).1|
    ensures var requests := Poll(world, k, now, deadline, interval).1;
            && requests[j].response == world(k + j).response
            && (j < |requests| - 1 ==> AsksToGoOn(requests[j].response))
    decreases j
  {
    JudgedAsSaid(world(k).response);
    if j > 0 {
      var next := NextInterval(interval, world(k).response);
      var later := now + world(k).latency + next + world(k).oversleep;
      AnswersInOrder(world, k + 1, later, deadline, next, j - 1);
      assert Poll(world, k, now, deadline, interval).1[1..] == Poll(world, k + 1, later, deadline, next).1;
    }
  }

  /** When the next request would be sent, going by the last one. */
  function NextAt(world: World, k: nat, requests: seq<Request>): real
    requires requests != []
  {
    var n := |requests| - 1;
    var step := if Says(requests[n].response, "slow_down") then 5000.0 else 0.0;
    requests[n].at + requests[n].interval + step + world(k + n).latency + world(k + n).oversleep
  }

  /**
   * The last answer decides: the outcome is what it ends with, or, if it asks
   * to go on, expiry, and then only because the next request would have been
   * sent at the deadline or later. Without a request the deadline had passed.
   */
  lemma {:induction false} LastAnswerDecides(world: World, k: nat, now: real, deadline: real, interval: Positive)
    ensures var (outcome, requests) := Poll(world, k, now, deadline, interval);
            if requests == [] then outcome == Refused("expired_token") && now >= deadline
            else
              var last := requests[|requests| - 1].response;
              if AsksToGoOn(last) then outcome == Refused("expired_token") && NextAt(world, k, requests) >= deadline
              else EndsWith(last, outcome)
    decreases Rounds(now, deadline, interval)
  {
    JudgedAsSaid(world(k).response);
    if now < deadline && AsksToGoOn(world(k).response) {
      var next := NextInterval(interval, world(k).response);
      if now + next < deadline {
        var later := now + world(k).latency + next + world(k).oversleep;
        RoundsShrink(now, deadline, interval, next, later);
        LastAnswerDecides(world, k + 1, later, deadline, next);
        var requests, rest := Poll(world, k, now, deadline, interval).1, Poll(world, k + 1, later, deadline, next).1;
        assert requests[1..] == rest;
        assert rest != [] ==> requests[|requests| - 1] == rest[|rest| - 1];
      }
    }
  }

  /** The requests fit into the lifetime, each but the first after a whole interval. */
  lemma {:induction false} RequestsFit(world: World, k: nat, now: real, deadline: real, interval: Positive)
    requires now < deadline
    ensures (|Poll(world, k, now, deadline, interval).1| - 1) as real * interval < deadline - now
    decreases Rounds(now, deadline, interval)
  {
    if !Judge(world(k).response).Stop? {
      var next := NextInterval(interval, world(k).response);
      if now + next < deadline {
        var later := now + world(k).latency + next + world(k).oversleep;
        RoundsShrink(now, deadline, interval, next, later);
        if later < deadline {
          RequestsFit(world, k + 1, later, deadline, next);
          var n := |Poll(world, k + 1, later, deadline, next).1|;
          assert n >= 1;
          ShorterIntervals((n - 1) as real, interval, next);
          assert n as real * interval == (n - 1) as real * interval + interval;
        }
      }
    }
  }

  /**
   * Every login, whatever the server and the clock do: fewer requests than
   * lifetime over interval plus one, none at or after the deadline.
   */
  lemma LoginIsBounded(world: World, terms: Terms, startedAt: real, delay: Delay)
    ensures var requests := Login(world, terms, startedAt, delay).1;
            && |requests| as real < terms.expiresIn * 1000.0 / StartInterval(terms) + 1.0
            && (forall j :: 0 <= j < |requests| ==> startedAt <= requests[j].at < startedAt + terms.expiresIn * 1000.0)
            && (requests != [] ==>
                  && requests[0].at == startedAt + delay
                  && requests[0].interval == 1000.0 * match terms.interval case Some(s) => s case None => 5.0)
  {
    var lifetime := terms.expiresIn * 1000.0;
    var interval := StartInterval(terms);
    var now, deadline := startedAt + delay, startedAt + lifetime;
    var requests := Login(world, terms, startedAt, delay).1;
    NonNegativeQuotient(lifetime, interval);
    if now < deadline {
      RequestsFit(world, 0, now, deadline, interval);
      var n := |requests|;
      BelowQuotient((n - 1) as real, lifetime, interval);
    }
    forall j | 0 <= j < |requests| ensures startedAt <= requests[j].at < deadline {
      RequestsAreSpaced(world, 0, now, deadline, interval, j);
      SentAfterStart(world, now, deadline, interval, j);
    }
  }

  lemma {:induction false} SentAfterStart(world: World, now: real, deadline: real, interval: Positive, j: nat)
    requires j < |Poll(world, 0, now, deadline, interval).1|
    ensures Poll(world, 0, now, deadline, interval).1[j].at >= now
    decreases j
  {
    RequestsAreSpaced(world, 0, now, deadline, interval, j);
    if j > 0 {
      SentAfterStart(world, now, deadline, interval, j - 1);
    }
  }
}
