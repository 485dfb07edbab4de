/**
  The task relay loop of controller/relay.go (RelayTask): pick a channel, submit, retry, and
  settle or refund at the end; with the retry counter and group switching of
  service/channel_select.go and the wallet billing session of service/billing_session.go.

  What the outside world does in the i-th iteration is `env(i)`.
*/
module TaskRelay {
  import opened Base

  datatype TaskError = TaskError(status: int, local: bool)

  datatype Submission = Accepted(quota: int) | Rejected(error: TaskError)

  // ----- billing -----

  /** A wallet-funded billing session: what was pre-charged and how far it got. */
  datatype Session = Session(preConsumed: int, fundingSettled: bool, settled: bool, refunded: bool)

  /** The user's wallet and token quota with the request's session, if it has one. */
  class Billing {
    var wallet: int
    var token: int
    var session: Option<Session>
    const playground: bool

    constructor (wallet: int, token: int, playground: bool)
      ensures this.wallet == wallet && this.token == token && session == None && this.playground == playground
    {
      this.wallet, this.token, session, this.playground := wallet, token, None, playground;
    }

    /** PreConsumeBilling with the wallet as source; the flags are the outcomes of the database calls. */
    method PreConsume(price: int, admitted: bool, tokenOk: bool, fundingOk: bool, rollbackOk: bool) returns (ok: bool)
      requires session == None
      modifies this
      ensures ok == (admitted && (price <= 0 || (tokenOk && fundingOk)))
      ensures ok ==> session == Some(Session(price, false, false, false))
      ensures !ok ==> session == None
      ensures wallet == old(wallet) - if ok && price > 0 then price else 0
      ensures token == old(token) -
              if !playground && price > 0 && admitted && tokenOk && (ok || !rollbackOk) then price else 0
    {
      if !admitted {
        return false;
      }
      var tokenConsumed := 0;
      if price > 0 {
        if !tokenOk {
          return false;
        }
        if !playground {
          token := token - price;
        }
        tokenConsumed := price;
      }
      if price > 0 {
        if !fundingOk {
          if tokenConsumed > 0 && !playground && rollbackOk {
            token := token + tokenConsumed;
          }
          return false;
        }
        wallet := wallet - price;
      }
      session := Some(Session(price, false, false, false));
      ok := true;
    }

    /** BillingSession.Settle. */
    method Settle(actual: int, fundingOk: bool, tokenOk: bool)
      requires session.Some?
      modifies this
      ensures session.Some? && session.value.preConsumed == old(session.value.preConsumed)
      ensures var s, delta := old(session.value), actual - old(session.value.preConsumed);
              var paid := !s.settled && delta != 0 && (s.fundingSettled || fundingOk);
              && wallet == old(wallet) - (if paid && !s.fundingSettled then delta else 0)
              && token == old(token) - (if paid && !playground && tokenOk then delta else 0)
              && session.value.settled == (s.settled || delta == 0 || paid)
              && session.value.refunded == s.refunded
    {
      var s := session.value;
      if s.settled {
        return;
      }
      var delta := actual - s.preConsumed;
      if delta == 0 {
        session := Some(s.(settled := true));
        return;
      }
      if !s.fundingSettled {
        if !fundingOk {
          return;
        }
        wallet := wallet - delta;
        session := Some(s.(fundingSettled := true));
      }
      if !playground && tokenOk {
        token := token - delta;
      }
      session := Some(session.value.(settled := true));
    }

    /** BillingSession.Refund: idempotent, and a no-op once anything was settled or refunded. */
    method Refund(fundingOk: bool, tokenOk: bool)
      requires session.Some?
      modifies this
      ensures session.Some? && session.value.preConsumed == old(session.value.preConsumed)
      ensures var s := old(session.value);
              var due := !s.settled && !s.refunded && !s.fundingSettled && s.preConsumed > 0;
              && wallet == old(wallet) + (if due && fundingOk then s.preConsumed else 0)
              && token == old(token) + (if due && tokenOk && !playground then s.preConsumed else 0)
              && session.value.settled == s.settled && session.value.refunded == (s.refunded || due)
    {
      var s := session.value;
      if s.settled || s.refunded || s.fundingSettled || s.preConsumed <= 0 {
        return;
      }
      session := Some(s.(refunded := true));
      if fundingOk {
        wallet := wallet + s.preConsumed;
      }
      if tokenOk && !playground {
        token := token + s.preConsumed;
      }
    }
  }

  // ----- choosing a channel -----

  datatype Selector = Locked | Plain | Auto(groups: nat, cross: bool)

  /** The retry counter and the auto-group position. */
  datatype Cursor = Cursor(retry: int, group: nat, resetNext: bool)

  /** The first group from `group` on that has a channel; the first one is asked at priority `retry`, the others at 0.
      */
  function FirstGroup(group: nat, retry: int, groups: nat, has: (nat, int) -> bool): Option<nat>
    decreases groups - group
  {
    if group >= groups then None
    else if has(group, retry) then Some(group)
    else FirstGroup(group + 1, 0, groups, has)
  }

  /** The cursor after group `g` was chosen: on its last priority, with retries across groups, the next retry moves on.
      */
  function Selected(c: Cursor, cross: bool, limit: int, g: nat): Cursor {
    var priority := if g > c.group then 0 else c.retry;
    if cross && priority >= limit then Cursor(0, g + 1, true) else Cursor(priority, g, c.resetNext)
  }

  /** CacheGetRandomSatisfiedChannel for the "auto" group. */
  method SelectAuto(c: Cursor, sel: Selector, limit: int, has: (nat, int) -> bool) returns (found: bool, c': Cursor)
    requires sel.Auto?
    ensures match FirstGroup(c.group, c.retry, sel.groups, has)
            case None => !found && c'.resetNext == c.resetNext
            case Some(g) => found && c' == Selected(c, sel.cross, limit, g)
  {
    c' := c;
    var i := c.group;
    while i < sel.groups
      invariant c.group <= i && c'.resetNext == c.resetNext
      invariant c' == if i == c.group then c else Cursor(0, i, c.resetNext)
      invariant FirstGroup(c.group, c.retry, sel.groups, has) ==
                FirstGroup(i, if i > c.group then 0 else c.retry, sel.groups, has)
    {
      var priorityRetry := c'.retry;
      if i > c.group {
        priorityRetry := 0;
      }
      if !has(i, priorityRetry) {
        c' := c'.(group := i + 1, retry := 0);
        i := i + 1;
        continue;
      }
      if sel.cross && priorityRetry >= limit {
        c' := Cursor(0, i + 1, true);
      } else {
        c' := c'.(group := i);
      }
      return true, c';
    }
    found := false;
  }

  /** RetryParam.IncreaseRetry. */
  function Increase(c: Cursor): Cursor {
    if c.resetNext then c.(resetNext := false) else c.(retry := c.retry + 1)
  }

  /** Submissions still possible from a cursor in auto mode: a full round for each group left, less the retries used. */
  function Budget(groups: nat, limit: nat, c: Cursor): int {
    if c.group >= groups then 0 else (groups - c.group) * (limit + 1) - c.retry
  }

  lemma Rounds(a: nat, b: nat, k: nat)
    requires a < b
    ensures b * (k + 1) >= a * (k + 1) + (k + 1) && a * (k + 1) >= 0
  {
    Distributes(a, b - a, k + 1);
    Distributes(1, b - a - 1, k + 1);
  }

  lemma Distributes(a: nat, b: nat, n: nat)
    ensures (a + b) * n == a * n + b * n && a * n >= 0 && b * n >= 0
  {
  }

  /** Every selection uses up at least one of the submissions still possible. */
  lemma SelectionCosts(c: Cursor, groups: nat, cross: bool, limit: nat, g: nat)
    requires !c.resetNext && 0 <= c.retry <= limit && c.group <= g < groups
    ensures var c' := Increase(Selected(c, cross, limit, g));
            && !c'.resetNext && 0 <= c'.retry
            && Budget(groups, limit, c') < Budget(groups, limit, c)
            && (c'.retry <= limit ==> Budget(groups, limit, c') >= 0) && Budget(groups, limit, c) > 0
  {
    var left := groups - c.group;
    assert left * (limit + 1) >= limit + 1 by { if left > 1 { Rounds(1, left, limit); } }
    if groups - g < left {
      Rounds(groups - g, left, limit);
    }
    Rounds(groups - g - 1, groups - g, limit);
    if groups - g - 1 > 0 && cross && (if g > c.group then 0 else c.retry) >= limit {
      Rounds(0, groups - g - 1, limit);
    }
  }

  // ----- the relay loop -----

  /** What the world does in one iteration. `has` says which group has a channel at which priority, `ready` whether the
      channel could be chosen and set up, `early` and `late` are errors before and after billing. */
  datatype World = World(
    has: (nat, int) -> bool, ready: bool, bodyOk: bool, early: Option<TaskError>, free: bool, price: int,
    admitted: bool, tokenOk: bool, fundingOk: bool, rollbackOk: bool, billingError: TaskError,
    late: Option<TaskError>, quota: int, affinitySkip: bool)

  /** The fixed part of a request. */
  datatype Config = Config(retryTimes: int, selector: Selector, specificChannel: bool, neverRetry: int -> bool)

  /** shouldRetryTaskRelay. */
  predicate ShouldRetry(e: TaskError, retriesLeft: int, w: World, cfg: Config) {
    if w.affinitySkip || retriesLeft <= 0 || cfg.specificChannel then false
    else if e.status == 429 || e.status == 307 then true
    else if e.status / 100 == 5 then !cfg.neverRetry(e.status)
    else if e.status == 400 || e.status == 408 || e.local then false
    else e.status / 100 != 2
  }

  /** The errors worth another attempt, by class: overload and redirects; server errors that are not listed as final;
      and anything else from upstream that is neither a success nor a bad request nor a timeout. */
  predicate Retryable(e: TaskError, w: World, cfg: Config) {
    var server := 500 <= e.status < 600;
    && !w.affinitySkip && !cfg.specificChannel
    && (|| e.status in {307, 429}
        || (server && !cfg.neverRetry(e.status))
        || (!server && !e.local && e.status !in {400, 408} && !(200 <= e.status < 300)))
  }

  lemma RetryIff(e: TaskError, retriesLeft: int, w: World, cfg: Config)
    ensures ShouldRetry(e, retriesLeft, w, cfg) <==> retriesLeft > 0 && Retryable(e, w, cfg)
  {
  }

  /** The part of a pre-charge that really left the wallet: a negative price is recorded but not paid out. */
  function Held(session: Option<Session>): nat {
    if session.Some? && session.value.preConsumed > 0 then session.value.preConsumed else 0
  }

  /** What a negative recorded pre-charge adds to the final bill. */
  function Excess(session: Option<Session>): nat {
    if session.Some? && session.value.preConsumed < 0 then -session.value.preConsumed else 0
  }

  /** Nothing has been settled or refunded; the wallet is down by exactly what is held. */
  ghost predicate Pending(b: Billing, wallet0: int)
    reads b
  {
    && b.wallet == wallet0 - Held(b.session)
    && (b.session.Some? ==> var s := b.session.value; !s.fundingSettled && !s.settled && !s.refunded)
  }

  /** Settled and not refunded after a success, refunded if anything was held and not settled otherwise. */
  predicate OneEnding(s: Session, accepted: bool, settleFunding: bool) {
    if accepted then !s.refunded && (settleFunding ==> s.settled)
    else !s.settled && (s.refunded <==> s.preConsumed > 0)
  }

  ghost predicate TokenPending(b: Billing, token0: int)
    reads b
  {
    b.token == token0 - if b.playground then 0 else Held(b.session)
  }

  /** The answer to one submission, and whether the request is billed after it. */
  function Answer(w: World, billed: bool): (Submission, bool) {
    var bills := w.early == None && !billed && !w.free;
    var paid := w.admitted && (w.price <= 0 || (w.tokenOk && w.fundingOk));
    if w.early.Some? then (Rejected(w.early.value), billed)
    else if bills && !paid then (Rejected(w.billingError), false)
    else (if w.late.Some? then Rejected(w.late.value) else Accepted(w.quota), billed || bills)
  }

  /** RelayTaskSubmit: bill once, on the first attempt that gets that far, then submit. */
  method Submit(b: Billing, w: World, ghost wallet0: int, ghost token0: int) returns (r: Submission)
    requires Pending(b, wallet0)
    modifies b
    ensures Pending(b, wallet0)
    ensures old(TokenPending(b, token0)) && w.rollbackOk ==> TokenPending(b, token0)
    ensures old(b.session).Some? ==> b.session == old(b.session)
    ensures w.price >= 0 && Excess(old(b.session)) == 0 ==> Excess(b.session) == 0
    ensures (r, b.session.Some?) == Answer(w, old(b.session).Some?)
  {
    if w.early.Some? {
      return Rejected(w.early.value);
    }
    if b.session == None && !w.free {
      var ok := b.PreConsume(w.price, w.admitted, w.tokenOk, w.fundingOk, w.rollbackOk);
      if !ok {
        return Rejected(w.billingError);
      }
    }
    if w.late.Some? {
      return Rejected(w.late.value);
    }
    r := Accepted(w.quota);
  }

  datatype Outcome = Settled(quota: int) | Failed | NilResult

  // ----- choosing and retrying -----

  /** getChannel or the locked channel. A channel already chosen by the middleware serves the first attempt. */
  function Chosen(cfg: Config, c: Cursor, chosen: bool, w: World): Option<Cursor> {
    if !w.ready then None
    else if !cfg.selector.Auto? || chosen then Some(c)
    else
      match FirstGroup(c.group, c.retry, cfg.selector.groups, w.has)
      case None => None
      case Some(g) => Some(Selected(c, cfg.selector.cross, cfg.retryTimes, g))
  }

  method Choose(cfg: Config, c: Cursor, chosen: bool, w: World) returns (ok: bool, c': Cursor)
    ensures ok == Chosen(cfg, c, chosen, w).Some?
    ensures ok ==> c' == Chosen(cfg, c, chosen, w).value
  {
    c' := c;
    if cfg.selector.Auto? && !chosen {
      ok, c' := SelectAuto(c, cfg.selector, cfg.retryTimes, w.has);
      ok := ok && w.ready;
    } else {
      ok := w.ready;
    }
  }

  /** Submissions still possible at the loop head. */
  function Left(cfg: Config, c: Cursor, chosen: bool): int
    requires cfg.retryTimes >= 0
  {
    match cfg.selector
    case Locked => cfg.retryTimes + 1 - c.retry
    case Plain => cfg.retryTimes + 1 - c.retry
    case Auto(groups, _) =>
      var all := Budget(groups, cfg.retryTimes, c);
      if chosen && all < 1 then 1 else all
  }

  predicate AtHead(cfg: Config, c: Cursor, chosen: bool) {
    cfg.retryTimes >= 0 && !c.resetNext && 0 <= c.retry && (chosen ==> c.retry == 0)
  }

  /** Every choice leaves fewer submissions. */
  lemma ChoiceCosts(cfg: Config, c: Cursor, chosen: bool, w: World)
    requires AtHead(cfg, c, chosen) && c.retry <= cfg.retryTimes && Chosen(cfg, c, chosen, w).Some?
    ensures var c' := Chosen(cfg, c, chosen, w).value; var next := Increase(c');
      && c'.retry >= 0 && AtHead(cfg, next, false) && Left(cfg, c, chosen) > 0
      && (next.retry <= cfg.retryTimes ==> 0 <= Left(cfg, next, false) < Left(cfg, c, chosen))
  {
    if cfg.selector.Auto? {
      var groups := cfg.selector.groups;
      if !chosen {
        FirstGroupBounds(c.group, c.retry, groups, w.has);
        SelectionCosts(c, groups, cfg.selector.cross, cfg.retryTimes,
                       FirstGroup(c.group, c.retry, groups, w.has).value);
      } else if c.group < groups {
        SelectionCosts(c, groups, false, cfg.retryTimes, c.group);
      }
    }
  }

  lemma {:induction false} FirstGroupBounds(group: nat, retry: int, groups: nat, has: (nat, int) -> bool)
    ensures FirstGroup(group, retry, groups, has).Some? ==>
            group <= FirstGroup(group, retry, groups, has).value < groups
    decreases groups - group
  {
    if group < groups { FirstGroupBounds(group + 1, 0, groups, has); }
  }

  /** How one iteration ends: without a submission, with the last one, or with one to be retried. */
  datatype Step = Stop | Last(s: Submission) | Again(s: Submission, next: Cursor, billed: bool)

  function Iteration(cfg: Config, c: Cursor, chosen: bool, billed: bool, w: World): Step {
    var choice := Chosen(cfg, c, chosen, w);
    if choice == None || !w.bodyOk then Stop
    else
      var (s, billed') := Answer(w, billed);
      if s.Accepted? || !ShouldRetry(s.error, cfg.retryTimes - choice.value.retry, w, cfg) then Last(s)
      else Again(s, Increase(choice.value), billed')
  }

  /** The submissions of the retry loop from a loop head on; the n-th iteration meets `env(n)`. */
  function Course(cfg: Config, c: Cursor, chosen: bool, billed: bool, env: nat -> World, n: nat): seq<Submission>
    requires AtHead(cfg, c, chosen)
    decreases if c.retry <= cfg.retryTimes && Left(cfg, c, chosen) > 0 then Left(cfg, c, chosen) else 0
  {
    if c.retry > cfg.retryTimes then []
    else
      match Iteration(cfg, c, chosen, billed, env(n))
      case Stop => []
      case Last(s) => [s]
      case Again(s, next, billed') =>
        ChoiceCosts(cfg, c, chosen, env(n));
        [s] + Course(cfg, next, false, billed', env, n + 1)
  }

  /** The submissions of a whole request. */
  function Submissions(cfg: Config, start: nat, chosen: bool, env: nat -> World): seq<Submission>
    requires cfg.retryTimes >= 0
  {
    Course(cfg, Cursor(0, start, false), chosen, false, env, 0)
  }

  lemma {:induction false} CourseBound(cfg: Config, c: Cursor, chosen: bool, billed: bool, env: nat -> World, n: nat)
    requires AtHead(cfg, c, chosen) && c.retry <= cfg.retryTimes
    ensures var course := Course(cfg, c, chosen, billed, env, n); |course| <= Left(cfg, c, chosen) || course == []
    decreases Left(cfg, c, chosen)
  {
    var w := env(n);
    if Chosen(cfg, c, chosen, w).Some? {
      ChoiceCosts(cfg, c, chosen, w);
      var next := Increase(Chosen(cfg, c, chosen, w).value);
      if next.retry <= cfg.retryTimes {
        CourseBound(cfg, next, false, Answer(w, billed).1, env, n + 1);
      }
    }
  }

  /** Every submission but the last was rejected with an error worth a retry. */
  lemma {:induction false} CourseRetries(cfg: Config, c: Cursor, chosen: bool, billed: bool, env: nat -> World, n: nat,
                                         i: nat)
    requires AtHead(cfg, c, chosen) && i + 1 < |Course(cfg, c, chosen, billed, env, n)|
    ensures var s := Course(cfg, c, chosen, billed, env, n)[i]; s.Rejected? && Retryable(s.error, env(n + i), cfg)
    decreases i
  {
    var w := env(n);
    var c', s := Chosen(cfg, c, chosen, w).value, Answer(w, billed).0;
    RetryIff(s.error, cfg.retryTimes - c'.retry, w, cfg);
    if i > 0 {
      ChoiceCosts(cfg, c, chosen, w);
      CourseRetries(cfg, Increase(c'), false, Answer(w, billed).1, env, n + 1, i - 1);
    }
  }

  /** The most submissions a request can make. */
  function Bound(cfg: Config, start: nat, chosen: bool): int
    requires cfg.retryTimes >= 0
  {
    Left(cfg, Cursor(0, start, false), chosen)
  }

  /** A request makes at most `Bound` submissions, and one if nothing may be retried; all but the last were rejected
      with errors worth a retry. */
  lemma SubmissionsMeaning(cfg: Config, start: nat, chosen: bool, env: nat -> World)
    requires cfg.retryTimes >= 0
    ensures var s := Submissions(cfg, start, chosen, env);
      && (s == [] || |s| <= Bound(cfg, start, chosen))
      && (cfg.retryTimes == 0 || cfg.specificChannel ==> |s| <= 1)
      && forall i: nat :: i + 1 < |s| ==> s[i].Rejected? && Retryable(s[i].error, env(i), cfg)
  {
    var c, s := Cursor(0, start, false), Submissions(cfg, start, chosen, env);
    CourseBound(cfg, c, chosen, false, env, 0);
    forall i: nat | i + 1 < |s| ensures s[i].Rejected? && Retryable(s[i].error, env(i), cfg) {
      CourseRetries(cfg, c, chosen, false, env, 0, i);
    }
    if Chosen(cfg, c, chosen, env(0)).Some? {
      ChoiceCosts(cfg, c, chosen, env(0));
      var c' := Chosen(cfg, c, chosen, env(0)).value;
      var a := Answer(env(0), false).0;
      if a.Rejected? { RetryIff(a.error, cfg.retryTimes - c'.retry, env(0), cfg); }
    }
  }

  /** `whole` is what was submitted so far followed by the course from here. */
  ghost predicate OnCourse(whole: seq<Submission>, soFar: seq<Submission>, cfg: Config, c: Cursor, chosen: bool,
                           billed: bool,
                           env: nat -> World)
  {
    AtHead(cfg, c, chosen) && whole == soFar + Course(cfg, c, chosen, billed, env, |soFar|)
  }

  /** One iteration either ends the course or leads to the next loop head on it, with fewer submissions left. */
  lemma StaysOnCourse(whole: seq<Submission>, soFar: seq<Submission>, cfg: Config, c: Cursor, chosen: bool,
                      billed: bool,
                      env: nat -> World)
    requires OnCourse(whole, soFar, cfg, c, chosen, billed, env) && c.retry <= cfg.retryTimes
    ensures match Iteration(cfg, c, chosen, billed, env(|soFar|))
      case Stop => whole == soFar
      case Last(s) => whole == soFar + [s]
      case Again(s, next, billed') =>
        && OnCourse(whole, soFar + [s], cfg, next, false, billed', env) && Left(cfg, c, chosen) > 0
        && (next.retry <= cfg.retryTimes ==> 0 <= Left(cfg, next, false) < Left(cfg, c, chosen))
  {
    var w := env(|soFar|);
    if Iteration(cfg, c, chosen, billed, w).Again? { ChoiceCosts(cfg, c, chosen, w); }
  }

  /** One iteration of the retry loop. */
  method Attempt(cfg: Config, c: Cursor, waiting: bool, w: World, b: Billing, ghost wallet0: int, ghost token0: int)
    returns (step: Step)
    requires Pending(b, wallet0)
    modifies b
    ensures Pending(b, wallet0)
    ensures old(TokenPending(b, token0)) && w.rollbackOk ==> TokenPending(b, token0)
    ensures w.price >= 0 && Excess(old(b.session)) == 0 ==> Excess(b.session) == 0
    ensures step == Iteration(cfg, c, waiting, old(b.session).Some?, w)
    ensures step.Again? ==> step.billed == b.session.Some?
  {
    var ok, c' := Choose(cfg, c, waiting, w);
    if !ok || !w.bodyOk {
      return Stop;
    }
    var result := Submit(b, w, wallet0, token0);
    if result.Accepted? || !ShouldRetry(result.error, cfg.retryTimes - c'.retry, w, cfg) {
      return Last(result);
    }
    step := Again(result, Increase(c'), b.session.Some?);
  }

  /** The retry loop of RelayTask. */
  method SubmitUntilDone(cfg: Config, start: nat, chosen: bool, env: nat -> World, b: Billing,
                         ghost wallet0: int, ghost token0: int)
    returns (submissions: seq<Submission>)
    requires cfg.retryTimes >= 0 && b.session == None && Pending(b, wallet0) && TokenPending(b, token0)
    modifies b
    ensures Pending(b, wallet0) && ((forall i :: env(i).rollbackOk) ==> TokenPending(b, token0))
    ensures (forall i :: env(i).price >= 0) ==> Excess(b.session) == 0
    ensures submissions == Submissions(cfg, start, chosen, env)
  {
    submissions := [];
    var c, waiting := Cursor(0, start, false), chosen;
    ghost var calm, sane := forall k :: env(k).rollbackOk, forall k :: env(k).price >= 0;
    ghost var whole := Submissions(cfg, start, chosen, env);
    while c.retry <= cfg.retryTimes
      invariant Pending(b, wallet0) && (calm ==> TokenPending(b, token0)) && (sane ==> Excess(b.session) == 0)
      invariant OnCourse(whole, submissions, cfg, c, waiting, b.session.Some?, env)
      decreases if c.retry <= cfg.retryTimes then Left(cfg, c, waiting) else 0
    {
      var w := env(|submissions|);
      StaysOnCourse(whole, submissions, cfg, c, waiting, b.session.Some?, env);
      var step := Attempt(cfg, c, waiting, w, b, wallet0, token0);
      if step.Stop? {
        return;
      }
      submissions := submissions + [step.s];
      if step.Last? {
        return;
      }
      c, waiting := step.next, false;
    }
  }

  /** RelayTask from the retry loop on. */
  method Relay(cfg: Config, start: nat, chosen: bool, env: nat -> World, b: Billing,
               settleFunding: bool, settleToken: bool, refundFunding: bool, refundToken: bool)
    returns (r: Outcome, submissions: seq<Submission>)
    requires b.session == None
    modifies b
    ensures r == NilResult <==> cfg.retryTimes < 0
    ensures r == NilResult ==> submissions == []
    ensures cfg.retryTimes >= 0 ==> submissions == Submissions(cfg, start, chosen, env)
    ensures r.Settled? <==> submissions != [] && submissions[|submissions| - 1].Accepted?
    ensures r.Settled? ==> submissions[|submissions| - 1].quota == r.quota
    ensures r.Settled? && settleFunding ==> b.wallet == old(b.wallet) - r.quota - Excess(b.session)
    ensures !r.Settled? && refundFunding ==> b.wallet == old(b.wallet)
    ensures b.session.Some? ==> OneEnding(b.session.value, r.Settled?, settleFunding)
    ensures (forall i :: env(i).price >= 0) ==> Excess(b.session) == 0
    ensures (forall i :: env(i).rollbackOk) && !b.playground ==>
              && (r.Settled? && settleFunding && settleToken ==> b.token == old(b.token) - r.quota - Excess(b.session))
              && (!r.Settled? && refundToken ==> b.token == old(b.token))
  {
    ghost var wallet0, token0 := b.wallet, b.token;
    if cfg.retryTimes < 0 {
      return NilResult, [];
    }
    submissions := SubmitUntilDone(cfg, start, chosen, env, b, wallet0, token0);
    var last := if submissions == [] then Rejected(TaskError(0, true)) else submissions[|submissions| - 1];
    var accepted, quota := last.Accepted?, if last.Accepted? then last.quota else 0;
    r := Finish(b, accepted, quota, settleFunding, settleToken, refundFunding, refundToken, wallet0, token0);
  }

  /** Settlement after a success; the deferred refund otherwise. */
  method Finish(b: Billing, accepted: bool, quota: int, settleFunding: bool, settleToken: bool, refundFunding: bool,
                refundToken: bool,
                ghost wallet0: int, ghost token0: int)
    returns (r: Outcome)
    requires Pending(b, wallet0)
    modifies b
    ensures r == if accepted then Settled(quota) else Failed
    ensures Excess(b.session) == Excess(old(b.session))
    ensures b.session.Some? ==> OneEnding(b.session.value, accepted, settleFunding)
    ensures accepted && settleFunding ==> b.wallet == wallet0 - quota - Excess(b.session)
    ensures !accepted && refundFunding ==> b.wallet == wallet0
    ensures old(TokenPending(b, token0)) && !b.playground && accepted && settleFunding && settleToken ==>
              b.token == token0 - quota - Excess(b.session)
    ensures old(TokenPending(b, token0)) && !b.playground && !accepted && refundToken ==> b.token == token0
  {
    if accepted {
      if b.session.Some? {
        b.Settle(quota, settleFunding, settleToken);
      } else if quota != 0 && settleFunding {
        b.wallet := b.wallet - quota;
        if !b.playground && settleToken {
          b.token := b.token - quota;
        }
      }
      r := Settled(quota);
    } else {
      if b.session.Some? {
        b.Refund(refundFunding, refundToken);
      }
      r := Failed;
    }
  }

  // ----- when RetryTimes + 1 bounds the submissions -----

  /** Everything is there, every submission fails with 429, and the first group has a channel for the first attempt
      only. */
  function Refusing(start: nat): nat -> World {
    n => World((g, _) => n == 0 || g != start, true, true, Some(TaskError(429, false)), true, 0,
               true, true, true, true, TaskError(0, true), None, 0, false)
  }

  predicate RetriesAllowed(cfg: Config) {
    cfg.retryTimes >= 1 && cfg.selector.Auto? && !cfg.specificChannel
  }

  /** In the group after the first, the retries from `k` on are all used. */
  lemma {:induction false} SecondGroup(cfg: Config, start: nat, k: nat, n: nat)
    requires RetriesAllowed(cfg) && start + 1 < cfg.selector.groups && k <= cfg.retryTimes && n > 0
    ensures |Course(cfg, Cursor(k, start + 1, false), false, false, Refusing(start), n)| >= cfg.retryTimes + 1 - k
    decreases cfg.retryTimes - k
  {
    var c, w := Cursor(k, start + 1, false), Refusing(start)(n);
    assert FirstGroup(start + 1, k, cfg.selector.groups, w.has) == Some(start + 1);
    assert Chosen(cfg, c, false, w) == Some(Selected(c, cfg.selector.cross, cfg.retryTimes, start + 1));
    if k < cfg.retryTimes { SecondGroup(cfg, start, k + 1, n + 1); }
  }

  /** One submission in the first group, then a full round in the second. */
  lemma TwoGroupsExceed(cfg: Config, start: nat, chosen: bool)
    requires RetriesAllowed(cfg) && start + 1 < cfg.selector.groups
    ensures |Submissions(cfg, start, chosen, Refusing(start))| >= cfg.retryTimes + 2
  {
    var env, groups := Refusing(start), cfg.selector.groups;
    assert FirstGroup(start, 0, groups, env(0).has) == Some(start);
    assert Chosen(cfg, Cursor(0, start, false), chosen, env(0)) == Some(Cursor(0, start, false));
    var second := Cursor(1, start, false);
    assert FirstGroup(start + 1, 0, groups, env(1).has) == Some(start + 1);
    assert FirstGroup(start, 1, groups, env(1).has) == Some(start + 1);
    assert Chosen(cfg, second, false, env(1)) == Some(Cursor(0, start + 1, false));
    SecondGroup(cfg, start, 1, 2);
    assert |Course(cfg, second, false, false, env, 1)| >= cfg.retryTimes + 1;
  }

  /** Fewer than two groups are left to try. */
  predicate OneGroup(selector: Selector, start: nat) {
    selector.Auto? ==> selector.groups < start + 2
  }

  lemma OneGroupBound(cfg: Config, start: nat, chosen: bool)
    requires cfg.retryTimes >= 0 && OneGroup(cfg.selector, start)
    ensures Bound(cfg, start, chosen) <= cfg.retryTimes + 1
  {
    if cfg.selector.Auto? && start < cfg.selector.groups {
      assert cfg.selector.groups - start == 1;
      assert 1 * (cfg.retryTimes + 1) == cfg.retryTimes + 1;
    }
  }

  /** A request makes at most RetryTimes + 1 submissions, whatever the world does, if and only if it has a fixed channel
      or group, or fewer than two "auto" groups left, or no retries, or names its channel. Otherwise a group that loses
      its channel resets the counter for the next one, with and without retries across groups. */
  lemma RetryBoundIff(cfg: Config, start: nat, chosen: bool)
    requires cfg.retryTimes >= 0
    ensures (forall env: nat -> World :: |Submissions(cfg, start, chosen, env)| <= cfg.retryTimes + 1) <==>
            OneGroup(cfg.selector, start) || cfg.retryTimes == 0 || cfg.specificChannel
  {
    if OneGroup(cfg.selector, start) || cfg.retryTimes == 0 || cfg.specificChannel {
      forall env: nat -> World ensures |Submissions(cfg, start, chosen, env)| <= cfg.retryTimes + 1 {
        SubmissionsMeaning(cfg, start, chosen, env);
        if OneGroup(cfg.selector, start) { OneGroupBound(cfg, start, chosen); }
      }
    } else {
      TwoGroupsExceed(cfg, start, chosen);
    }
  }

  // ----- the bound itself is reached -----

  /** Every group has a channel at every priority, and every submission fails with 429. */
  function AllOpen(): nat -> World {
    n => World((_, _) => true, true, true, Some(TaskError(429, false)), true, 0,
               true, true, true, true, TaskError(0, true), None, 0, false)
  }

  /** With retries across groups every group gets its full round of RetryTimes + 1 submissions. */
  lemma {:induction false} AutoReachesBound(cfg: Config, c: Cursor, n: nat)
    requires RetriesAllowed(cfg) && cfg.selector.cross && AtHead(cfg, c, false) && c.retry <= cfg.retryTimes
    ensures |Course(cfg, c, false, false, AllOpen(), n)| == Left(cfg, c, false)
    decreases Left(cfg, c, false)
  {
    if c.group < cfg.selector.groups {
      OpenIteration(cfg, c, n);
      ChoiceCosts(cfg, c, false, AllOpen()(n));
      var next := Increase(Selected(c, true, cfg.retryTimes, c.group));
      AutoReachesBound(cfg, next, n + 1);
      OneLess(cfg.selector.groups, cfg.retryTimes, c);
    }
  }

  /** With channels everywhere, every iteration is retried. */
  lemma OpenIteration(cfg: Config, c: Cursor, n: nat)
    requires RetriesAllowed(cfg) && cfg.selector.cross && AtHead(cfg, c, false) && c.retry <= cfg.retryTimes
    requires c.group < cfg.selector.groups
    ensures var chosen := Selected(c, true, cfg.retryTimes, c.group);
      && Chosen(cfg, c, false, AllOpen()(n)) == Some(chosen)
      && Iteration(cfg, c, false, false, AllOpen()(n)) ==
         Again(Rejected(TaskError(429, false)), Increase(chosen), false)
  {
    assert FirstGroup(c.group, c.retry, cfg.selector.groups, AllOpen()(n).has) == Some(c.group);
  }

  /** A selection in the first group uses up exactly one submission. */
  lemma OneLess(groups: nat, limit: nat, c: Cursor)
    requires !c.resetNext && 0 <= c.retry <= limit && c.group < groups
    ensures Budget(groups, limit, Increase(Selected(c, true, limit, c.group))) == Budget(groups, limit, c) - 1
  {
    Distributes(groups - c.group - 1, 1, limit + 1);
  }
}
