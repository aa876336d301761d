/**
 * One generation call with its retry loop (backend/src/realityIndex/llmQueue.js, rawCallAnthropic). When the model
 * rejects a parameter, the process notes it and the call is repeated at once, without using up an attempt. What is
 * noted is not sent again, except a "disabled" thinking object that the caller insists on.
 */
module LlmRetry {
  import opened Common

  /** What the loop looks at in a thrown error; `status` is 0 when there is none. */
  datatype ApiError = ApiError(
    status: int, network: bool,
    saysSampling: bool, saysThinking: bool, saysCreditTooLow: bool, saysPermission: bool)

  datatype Reply = Text | Refusal | Empty(maxTokens: bool) | Throws(e: ApiError)

  datatype HardClass = Billing | Auth | Permission | ModelGone

  datatype Outcome =
    | Unconfigured
    | Answered
    | Refused
    | NoText(maxTokens: bool)
    | HardFailure(why: HardClass)
    | TransientFailure
    | HttpFailure(status: int)
    | Exhausted

  predicate IsTransient(e: ApiError) {
    e.status in {503, 429, 529} || e.network
  }

  function ClassifyHard(e: ApiError): Option<HardClass> {
    if e.saysCreditTooLow then Some(Billing)
    else if e.status == 401 then Some(Auth)
    else if e.status == 402 then Some(Billing)
    else if e.status == 403 || e.saysPermission then Some(Permission)
    else if e.status == 404 then Some(ModelGone)
    else None
  }

  /** The caller's choice: unset, the model's own default, or an object sent as it is. */
  datatype Thinking = Unset | ModelDefault | Verbatim(disabled: bool)

  /** What one request carries. */
  datatype Params = Params(temperature: bool, thinkingDisabled: bool)

  predicate SendsDisabled(t: Thinking, rejected: bool) {
    t == Verbatim(true) || (t == Unset && !rejected)
  }

  predicate RejectsSampling(r: Reply) {
    r.Throws? && r.e.status == 400 && r.e.saysSampling
  }

  predicate RejectsThinking(r: Reply) {
    r.Throws? && r.e.status == 400 && r.e.saysThinking
  }

  /** A transient error that is not also a hard one. */
  predicate WorthWaiting(r: Reply) {
    r.Throws? && ClassifyHard(r.e).None? && IsTransient(r.e)
  }

  function OutcomeOf(r: Reply): Outcome {
    match r
    case Text => Answered
    case Refusal => Refused
    case Empty(m) => NoText(m)
    case Throws(e) =>
      if ClassifyHard(e).Some? then HardFailure(ClassifyHard(e).value)
      else if IsTransient(e) then TransientFailure
      else HttpFailure(e.status)
  }

  /** What the outcome of a failed call says of the error it failed with, the first rule that applies deciding. */
  lemma OutcomeMeans(e: ApiError, status: int)
    ensures OutcomeOf(Throws(e)) == HardFailure(Billing) <==> e.saysCreditTooLow || e.status == 402
    ensures OutcomeOf(Throws(e)) == HardFailure(Auth) <==> !e.saysCreditTooLow && e.status == 401
    ensures OutcomeOf(Throws(e)) == HardFailure(Permission) <==>
              !e.saysCreditTooLow && e.status != 401 && e.status != 402 && (e.status == 403 || e.saysPermission)
    ensures OutcomeOf(Throws(e)) == HardFailure(ModelGone) <==>
              !e.saysCreditTooLow && !e.saysPermission && e.status == 404
    ensures OutcomeOf(Throws(e)) == TransientFailure <==>
              && !e.saysCreditTooLow && !e.saysPermission && !(401 <= e.status <= 404)
              && (e.status == 503 || e.status == 429 || e.status == 529 || e.network)
    ensures OutcomeOf(Throws(e)) == HttpFailure(status) <==>
              && e.status == status && !e.saysCreditTooLow && !e.saysPermission && !(401 <= e.status <= 404)
              && e.status != 503 && e.status != 429 && e.status != 529 && !e.network
  {
  }

  // ---- the rejected parameters, as facts about the replies ------------------------------------

  /** Some reply before the n-th rejected the sampling parameters. */
  ghost predicate SamplingRejected(was: bool, api: nat -> Reply, n: nat) {
    was || exists j: nat :: j < n && RejectsSampling(api(j))
  }

  /** Some reply before the n-th rejected a disabled thinking parameter and was not spent on the sampling parameters. */
  ghost predicate ThinkingRejected(tempWas: bool, was: bool, t: Thinking, api: nat -> Reply, n: nat) {
    was || exists j: nat :: j < n && RejectsThinking(api(j)) && t in {Unset, Verbatim(true)}
                            && (RejectsSampling(api(j)) ==> SamplingRejected(tempWas, api, j))
  }

  /** Every request carries exactly the parameters that had not been rejected when it was sent. */
  ghost predicate SentRight(tempWas: bool, thinkWas: bool, t: Thinking, api: nat -> Reply, sent: seq<Params>) {
    forall k :: 0 <= k < |sent| ==>
      sent[k] == Params(
        !SamplingRejected(tempWas, api, k),
        SendsDisabled(t, ThinkingRejected(tempWas, thinkWas, t, api, k)))
  }

  lemma NothingSent(tempWas: bool, thinkWas: bool, t: Thinking, api: nat -> Reply)
    ensures SamplingRejected(tempWas, api, 0) == tempWas && ThinkingRejected(tempWas, thinkWas, t, api, 0) == thinkWas
    ensures SentRight(tempWas, thinkWas, t, api, [])
  {
  }

  lemma OneMoreSent(tempWas: bool, thinkWas: bool, t: Thinking, api: nat -> Reply, sent: seq<Params>, p: Params)
    requires SentRight(tempWas, thinkWas, t, api, sent)
    requires p == Params(
               !SamplingRejected(tempWas, api, |sent|),
               SendsDisabled(t, ThinkingRejected(tempWas, thinkWas, t, api, |sent|)))
    ensures SentRight(tempWas, thinkWas, t, api, sent + [p])
    ensures SamplingRejected(tempWas, api, |sent| + 1) <==>
              SamplingRejected(tempWas, api, |sent|) || RejectsSampling(api(|sent|))
    ensures ThinkingRejected(tempWas, thinkWas, t, api, |sent| + 1) <==>
              ThinkingRejected(tempWas, thinkWas, t, api, |sent|)
              || (RejectsThinking(api(|sent|)) && t in {Unset, Verbatim(true)}
                  && (RejectsSampling(api(|sent|)) ==> SamplingRejected(tempWas, api, |sent|)))
  {
    hide SamplingRejected, RejectsThinking, RejectsSampling;
    SamplingNext(tempWas, api, |sent|);
    ThinkingNext(tempWas, thinkWas, t, api, |sent|);
  }

  lemma SamplingNext(was: bool, api: nat -> Reply, n: nat)
    ensures SamplingRejected(was, api, n + 1) <==> SamplingRejected(was, api, n) || RejectsSampling(api(n))
  {
  }

  lemma ThinkingNext(tempWas: bool, was: bool, t: Thinking, api: nat -> Reply, n: nat)
    ensures ThinkingRejected(tempWas, was, t, api, n + 1) <==>
              ThinkingRejected(tempWas, was, t, api, n)
              || (RejectsThinking(api(n)) && t in {Unset, Verbatim(true)}
                  && (RejectsSampling(api(n)) ==> SamplingRejected(tempWas, api, n)))
  {
    hide SamplingRejected, RejectsThinking, RejectsSampling;
  }

  /**
   * The reason to send another request after the k-th: its reply is a rejection not yet noted, or worth waiting for.
   */
  ghost predicate Repeats(tempWas: bool, thinkWas: bool, t: Thinking, api: nat -> Reply, k: nat) {
    || (RejectsSampling(api(k)) && !SamplingRejected(tempWas, api, k))
    || (RejectsThinking(api(k)) && t in {Unset, Verbatim(true)} && !ThinkingRejected(tempWas, thinkWas, t, api, k))
    || WorthWaiting(api(k))
  }

  /** One when a rejection is noted that was not noted before. */
  function Noted(was: bool, now: bool): int {
    (if now then 1 else 0) - if was then 1 else 0
  }

  class Client {
    var temperatureRejected: bool
    var thinkingRejected: bool

    constructor ()
      ensures !temperatureRejected && !thinkingRejected
    {
      temperatureRejected, thinkingRejected := false, false;
    }

    /**
     * `api` is what the model answers to each request in turn: anything at all. `calls` requests are sent and the
     * pauses taken are `slept`.
     */
    method RawCall(configured: bool, api: nat -> Reply, delays: seq<int>, thinking: Thinking)
      returns (o: Outcome, calls: nat, slept: seq<int>, sent: seq<Params>)
      modifies this
      ensures o != Exhausted
      ensures !configured ==> o == Unconfigured && calls == 0
      ensures configured ==> 1 <= calls <= |delays| + 3
      // A request beyond the first is paid for by a pause or by a rejection noted for the rest of the process.
      ensures configured ==>
                calls == 1 + |slept| + Noted(old(temperatureRejected), temperatureRejected)
                                     + Noted(old(thinkingRejected), thinkingRejected)
      ensures old(temperatureRejected) ==> temperatureRejected
      ensures old(thinkingRejected) ==> thinkingRejected
      // The pauses are the configured ones, in order, from the first.
      ensures slept <= delays
      // The outcome is what the last reply says; a transient failure is reported only when every pause is spent.
      ensures configured ==> o == OutcomeOf(api(calls - 1))
      ensures o == TransientFailure ==> slept == delays
      // No request is repeated without a reason.
      ensures forall k: nat :: k + 1 < calls ==>
                Repeats(old(temperatureRejected), old(thinkingRejected), thinking, api, k)
      // What was sent is settled by what had been rejected, in this call or an earlier one (see NotResentIff).
      ensures |sent| == calls && SentRight(old(temperatureRejected), old(thinkingRejected), thinking, api, sent)
      ensures temperatureRejected <==> SamplingRejected(old(temperatureRejected), api, calls)
      ensures thinkingRejected <==>
                ThinkingRejected(old(temperatureRejected), old(thinkingRejected), thinking, api, calls)
    {
      hide SamplingRejected, ThinkingRejected, SentRight;
      ghost var temp0, think0 := temperatureRejected, thinkingRejected;
      NothingSent(temp0, think0, thinking, api);
      o, calls, slept, sent := Unconfigured, 0, [], [];
      if !configured {
        return;
      }
      var freeTemp, freeThinking := false, false;
      var attempt := 0;
      while attempt <= |delays|
        invariant 0 <= attempt <= |delays|
        invariant slept == delays[..attempt] && |sent| == calls
        invariant freeTemp ==> temperatureRejected
        invariant freeThinking ==> thinkingRejected
        invariant temp0 ==> temperatureRejected
        invariant think0 ==> thinkingRejected
        invariant calls == attempt + Noted(temp0, temperatureRejected) + Noted(think0, thinkingRejected)
        invariant forall k: nat :: k < calls ==> Repeats(temp0, think0, thinking, api, k)
        invariant SentRight(temp0, think0, thinking, api, sent)
        invariant temperatureRejected <==> SamplingRejected(temp0, api, calls)
        invariant thinkingRejected <==> ThinkingRejected(temp0, think0, thinking, api, calls)
        decreases !temperatureRejected, !thinkingRejected, |delays| - attempt
      {
        var p := Params(!temperatureRejected, SendsDisabled(thinking, thinkingRejected));
        var r := api(calls);
        OneMoreSent(temp0, think0, thinking, api, sent, p);
        calls, sent := calls + 1, sent + [p];
        if !r.Throws? {
          o := OutcomeOf(r);
          return;
        }
        var e := r.e;
        if e.status == 400 && !temperatureRejected && e.saysSampling {
          temperatureRejected := true;
          if !freeTemp {
            freeTemp := true;
            attempt := attempt - 1;
          }
        } else if e.status == 400 && p.thinkingDisabled && !thinkingRejected && e.saysThinking {
          thinkingRejected := true;
          if !freeThinking {
            freeThinking := true;
            attempt := attempt - 1;
          }
        } else if ClassifyHard(e).Some? {
          o := HardFailure(ClassifyHard(e).value);
          return;
        } else if IsTransient(e) && attempt < |delays| {
          slept := slept + [delays[attempt]];
        } else {
          o := if IsTransient(e) then TransientFailure else HttpFailure(e.status);
          return;
        }
        attempt := attempt + 1;
      }
      o := Exhausted;
    }
  }

  /** The reply is a 400 that names the sampling parameters, or thinking. */
  predicate Names400(r: Reply, thinking: bool) {
    r.Throws? && r.e.status == 400 && if thinking then r.e.saysThinking else r.e.saysSampling
  }

  /**
   * Request by request: temperature is sent until a 400 has named the sampling parameters; thinking is disabled when
   * the caller says so, or says nothing and no 400 has named thinking that was not spent on the sampling parameters.
   */
  lemma SentMeans(tempWas: bool, thinkWas: bool, t: Thinking, api: nat -> Reply, sent: seq<Params>, k: nat)
    requires SentRight(tempWas, thinkWas, t, api, sent) && k < |sent|
    ensures sent[k].temperature <==> !tempWas && forall j: nat :: j < k ==> !Names400(api(j), false)
    ensures sent[k].thinkingDisabled <==>
              || t == Verbatim(true)
              || (t == Unset && !thinkWas
                  && forall j: nat :: j < k && Names400(api(j), true) ==>
                       Names400(api(j), false) && !tempWas && forall i: nat :: i < j ==> !Names400(api(i), false))
  {
    assert sent[k] == Params(
             !SamplingRejected(tempWas, api, k), SendsDisabled(t, ThinkingRejected(tempWas, thinkWas, t, api, k)));
    forall j: nat | j <= k
      ensures SamplingRejected(tempWas, api, j) <==> tempWas || exists i: nat :: i < j && Names400(api(i), false)
    {
    }
    forall j: nat
      ensures RejectsSampling(api(j)) == Names400(api(j), false) && RejectsThinking(api(j)) == Names400(api(j), true)
    {
    }
    hide SamplingRejected, RejectsSampling, RejectsThinking, Names400, SentRight;
  }

  // ---- is a rejected parameter sent again? ----------------------------------------------------

  /** No request carries a parameter that had been rejected before it. */
  ghost predicate NotResent(tempWas: bool, thinkWas: bool, t: Thinking, api: nat -> Reply, sent: seq<Params>) {
    forall k: nat :: k < |sent| ==>
      && (SamplingRejected(tempWas, api, k) ==> !sent[k].temperature)
      && (ThinkingRejected(tempWas, thinkWas, t, api, k) ==> !sent[k].thinkingDisabled)
  }

  /** Request by request: temperature never comes back, disabled thinking comes back iff the caller insists on it. */
  lemma ResentIff(tempWas: bool, thinkWas: bool, t: Thinking, api: nat -> Reply, sent: seq<Params>, k: nat)
    requires SentRight(tempWas, thinkWas, t, api, sent) && k < |sent|
    ensures SamplingRejected(tempWas, api, k) ==> !sent[k].temperature
    ensures ThinkingRejected(tempWas, thinkWas, t, api, k) ==> (sent[k].thinkingDisabled <==> t == Verbatim(true))
  {
  }

  ghost predicate NeverResent(t: Thinking) {
    forall tempWas: bool, thinkWas: bool, api: nat -> Reply, sent: seq<Params> ::
      SentRight(tempWas, thinkWas, t, api, sent) ==> NotResent(tempWas, thinkWas, t, api, sent)
  }

  /** A 400 that names thinking and nothing else. */
  const ThinkingRefused := Throws(ApiError(400, false, false, true, false, false))

  /** What the two notes promise holds of every call exactly when the caller does not insist on disabled thinking. */
  lemma NotResentIff(t: Thinking)
    ensures NeverResent(t) <==> t != Verbatim(true)
  {
    if t == Verbatim(true) {
      var api: nat -> Reply := _ => ThinkingRefused;
      var sent := [Params(true, true), Params(true, true)];
      assert RejectsThinking(api(0));
      assert ThinkingRejected(false, false, t, api, 1);
      assert SentRight(false, false, t, api, sent);
      assert !NotResent(false, false, t, api, sent);
    } else {
      forall tempWas: bool, thinkWas: bool, api: nat -> Reply, sent: seq<Params> |
        SentRight(tempWas, thinkWas, t, api, sent)
        ensures NotResent(tempWas, thinkWas, t, api, sent)
      {
        forall k: nat | k < |sent|
          ensures SamplingRejected(tempWas, api, k) ==> !sent[k].temperature
          ensures ThinkingRejected(tempWas, thinkWas, t, api, k) ==> !sent[k].thinkingDisabled
        {
          ResentIff(tempWas, thinkWas, t, api, sent, k);
        }
      }
    }
  }

  /**
   * The call that shows it: the object the caller insists on is rejected, the rejection noted, the same object sent
   * once more for nothing, and the second rejection ends the call whatever pauses are left.
   */
  method InsistedIsResent(client: Client, delays: seq<int>) returns (o: Outcome, sent: seq<Params>)
    requires !client.thinkingRejected
    modifies client
    ensures |sent| == 2 && sent[0].thinkingDisabled && sent[1].thinkingDisabled
    ensures o == HttpFailure(400) && client.thinkingRejected
  {
    var api: nat -> Reply := _ => ThinkingRefused;
    ghost var temp0 := client.temperatureRejected;
    var calls, slept;
    o, calls, slept, sent := client.RawCall(true, api, delays, Verbatim(true));
    assert RejectsThinking(api(0));
    assert ThinkingRejected(temp0, false, Verbatim(true), api, 1);
    assert calls > 2 ==> Repeats(temp0, false, Verbatim(true), api, 1);
  }

  // ---- is a transient error ever fatal? ---------------------------------------------------------

  /**
   * The comment on the classifier says no transient error is ever hard, so that it is always waited for. A model that
   * answers every request with one transient error ends the call as a hard failure, without a single pause, exactly
   * when the text of the error is about credit or permission, or a network error carries one of the hard statuses;
   * otherwise every pause is taken before the call gives up.
   */
  method TransientIsHardIff(client: Client, delays: seq<int>, thinking: Thinking, e: ApiError)
    returns (o: Outcome, calls: nat, slept: seq<int>)
    requires IsTransient(e)
    modifies client
    ensures o.HardFailure? <==> e.saysCreditTooLow || e.saysPermission || e.status in {401, 402, 403, 404}
    ensures o.HardFailure? ==> slept == [] && (e.status != 400 ==> calls == 1)
    ensures !o.HardFailure? ==> o == TransientFailure && slept == delays
  {
    var api: nat -> Reply := _ => Throws(e);
    ghost var temp0, think0 := client.temperatureRejected, client.thinkingRejected;
    var sent;
    o, calls, slept, sent := client.RawCall(true, api, delays, thinking);
    if o.HardFailure? {
      HardIsNotWaitedFor(temp0, think0, thinking, api, e, calls - 1);
      SamplingNext(temp0, api, calls - 1);
      ThinkingNext(temp0, think0, thinking, api, calls - 1);
    }
  }

  /** Against a hard error nothing is repeated but what a rejected parameter pays for. */
  lemma {:induction false} HardIsNotWaitedFor(
    tempWas: bool, thinkWas: bool, t: Thinking, api: nat -> Reply, e: ApiError, n: nat)
    requires ClassifyHard(e).Some? && forall k: nat :: api(k) == Throws(e)
    requires forall k: nat :: k < n ==> Repeats(tempWas, thinkWas, t, api, k)
    ensures n <= Noted(tempWas, SamplingRejected(tempWas, api, n))
                 + Noted(thinkWas, ThinkingRejected(tempWas, thinkWas, t, api, n))
    ensures e.status != 400 ==> n == 0
  {
    if n > 0 {
      HardIsNotWaitedFor(tempWas, thinkWas, t, api, e, n - 1);
      assert Repeats(tempWas, thinkWas, t, api, n - 1);
      SamplingNext(tempWas, api, n - 1);
      ThinkingNext(tempWas, thinkWas, t, api, n - 1);
    }
  }

  /** A rate-limit reply whose text says that the credit is too low is never waited for. */
  method RateLimitIsHard(client: Client, delays: seq<int>, thinking: Thinking)
    returns (o: Outcome, calls: nat, slept: seq<int>)
    modifies client
    ensures o.HardFailure? && calls == 1 && slept == []
  {
    o, calls, slept := TransientIsHardIff(client, delays, thinking, ApiError(429, false, false, false, true, false));
  }
}
