/** The three nested retry loops around one language-model call (`llm/groq/client.go`,
    `analyze.go`, `schema_retry.go`): transport retries inside rate-limit retries inside one
    schema retry. The server is any sequence of replies, the context any pattern of cancellation;
    durations are in nanoseconds. */
module Retry {
  import opened Options

  const MAX_RETRY_AFTER: nat := 60_000_000_000
  const RETRY_AFTER_BUFFER: nat := 750_000_000
  const MAX_RATE_LIMIT_ATTEMPTS: nat := 4

  datatype Message = Message(role: string, content: string)

  /** What one attempt meets: no request could be built, the transport failed, or the server
      answered with a status, a wait hint and, if the body decodes, the assistant's text. */
  datatype Reply = BuildFailed | TransportFailed | Response(code: int, hint: nat, content: Option<string>)

  /** `reply` and `cancelled` are consulted by the number of attempts and of waits so far. */
  datatype Env = Env(reply: nat -> Reply, cancelled: nat -> bool)

  datatype Attempt = Attempt(messages: seq<Message>, reply: Reply)

  /** The attempts made, the total time waited and the part of it for rate limits (a cancelled wait
      counts in full), and the number of waits. */
  datatype Tape = Tape(attempts: seq<Attempt>, waited: nat, limited: nat, naps: nat)

  datatype Error = Cancelled | BadRequest | Unavailable | InvalidAPIKey | RateLimited | SchemaInvalid
  datatype Outcome = Ok(raw: string) | Err(error: Error)
  datatype Got = Answer(reply: Reply) | Nothing(error: Error)

  function ClampRetryAfter(d: nat): nat {
    if d > MAX_RETRY_AFTER then MAX_RETRY_AFTER else d
  }

  predicate IsServerError(r: Reply) {
    r.Response? && 500 <= r.code < 600
  }

  predicate IsAuth(r: Reply) {
    r.Response? && (r.code == 401 || r.code == 403)
  }

  /** A 2xx reply whose body decodes. */
  predicate IsGood(r: Reply) {
    r.Response? && 200 <= r.code < 300 && r.content.Some?
  }

  function Nap(tape: Tape, wait: nat): Tape {
    tape.(waited := tape.waited + wait, naps := tape.naps + 1)
  }

  /** A wait for a rate limit to pass. */
  function LimitNap(tape: Tape, wait: nat): Tape {
    Nap(tape, wait).(limited := tape.limited + wait)
  }

  function Try(env: Env, messages: seq<Message>, tape: Tape): (Reply, Tape) {
    var r := env.reply(|tape.attempts|);
    (r, tape.(attempts := tape.attempts + [Attempt(messages, r)]))
  }

  /** `doWithRetry` from a given attempt on. */
  function DoFrom(env: Env, backoff: seq<nat>, messages: seq<Message>, tape: Tape, attempt: nat): (Got, Tape)
    decreases |backoff| + 1 - attempt
  {
    if attempt > |backoff| then (Nothing(Unavailable), tape)
    else
      var rested := if attempt > 0 then Nap(tape, backoff[attempt - 1]) else tape;
      if attempt > 0 && env.cancelled(tape.naps) then (Nothing(Cancelled), rested)
      else
        var (r, next) := Try(env, messages, rested);
        if r.BuildFailed? then (Nothing(BadRequest), next)
        else if r.TransportFailed? || IsServerError(r) then DoFrom(env, backoff, messages, next, attempt + 1)
        else (Answer(r), next)
  }

  /** How `chatOnce` reads an answer: the outcome, and a wait hint for a 429. */
  function Classify(r: Reply): (Outcome, nat)
    requires r.Response?
  {
    if r.code < 200 || r.code >= 300 then
      if r.code == 401 || r.code == 403 then (Err(InvalidAPIKey), 0)
      else if r.code == 429 then (Err(RateLimited), ClampRetryAfter(r.hint))
      else (Err(Unavailable), 0)
    else if r.content.None? then (Err(Unavailable), 0)
    else (Ok(r.content.value), 0)
  }

  function Read(got: Got): (Outcome, nat) {
    match got
    case Nothing(e) => (Err(e), 0)
    case Answer(r) => if r.Response? then Classify(r) else (Err(Unavailable), 0)
  }

  function ChatOnce(env: Env, backoff: seq<nat>, messages: seq<Message>, tape: Tape): (Outcome, nat, Tape) {
    var (got, next) := DoFrom(env, backoff, messages, tape, 0);
    (Read(got).0, Read(got).1, next)
  }

  function RateLimitWait(retryAfter: nat): nat {
    if retryAfter + RETRY_AFTER_BUFFER > MAX_RETRY_AFTER then MAX_RETRY_AFTER else retryAfter + RETRY_AFTER_BUFFER
  }

  /** `withRateLimitRetry` around `chatOnce`, from a given attempt on. */
  function ChatFrom(env: Env, backoff: seq<nat>, messages: seq<Message>, tape: Tape, attempt: nat): (Outcome, Tape)
    requires attempt < MAX_RATE_LIMIT_ATTEMPTS
    decreases MAX_RATE_LIMIT_ATTEMPTS - attempt
  {
    var (outcome, retryAfter, next) := ChatOnce(env, backoff, messages, tape);
    if outcome.Ok? then (outcome, next)
    else if attempt < MAX_RATE_LIMIT_ATTEMPTS - 1 && retryAfter > 0 then
      var rested := LimitNap(next, RateLimitWait(retryAfter));
      if env.cancelled(next.naps) then (Err(Cancelled), rested)
      else ChatFrom(env, backoff, messages, rested, attempt + 1)
    else (outcome, next)
  }

  /** The conversation of the second try: the first answer and the reason it was refused. */
  function WithComplaint(messages: seq<Message>, raw: string, complaint: string -> string): seq<Message> {
    messages + [Message("assistant", raw), Message("user", complaint(raw))]
  }

  /** `chatJSONWithSchemaRetry`. */
  function SchemaCall(env: Env, backoff: seq<nat>, messages: seq<Message>, valid: string -> bool,
                      complaint: string -> string, tape: Tape): (Outcome, Tape)
  {
    var (first, next) := ChatFrom(env, backoff, messages, tape, 0);
    if first.Err? || valid(first.raw) then (first, next)
    else
      var (second, last) := ChatFrom(env, backoff, WithComplaint(messages, first.raw, complaint), next, 0);
      if second.Ok? && !valid(second.raw) then (Err(SchemaInvalid), last) else (second, last)
  }

  class Client {
    const env: Env
    const backoff: seq<nat>
    var tape: Tape

    constructor (env: Env, backoff: seq<nat>)
      ensures this.env == env && this.backoff == backoff && tape == Tape([], 0, 0, 0)
    {
      this.env, this.backoff := env, backoff;
      tape := Tape([], 0, 0, 0);
    }

    /** Wait, or learn that the context is done. */
    method Sleep(wait: nat, forLimit: bool) returns (done: bool)
      modifies this
      ensures tape == if forLimit then LimitNap(old(tape), wait) else Nap(old(tape), wait)
      ensures done == env.cancelled(old(tape.naps))
    {
      done := env.cancelled(tape.naps);
      tape := tape.(waited := tape.waited + wait, naps := tape.naps + 1);
      if forLimit {
        tape := tape.(limited := tape.limited + wait);
      }
    }

    method Do(messages: seq<Message>) returns (r: Reply)
      modifies this
      ensures (r, tape) == Try(env, messages, old(tape))
    {
      r := env.reply(|tape.attempts|);
      tape := tape.(attempts := tape.attempts + [Attempt(messages, r)]);
    }

    method DoWithRetry(messages: seq<Message>) returns (got: Got)
      modifies this
      ensures (got, tape) == DoFrom(env, backoff, messages, old(tape), 0)
      ensures IsTransportRun(env, backoff, messages, old(tape), got, tape)
    {
      DoIsTransportRun(env, backoff, messages, tape);
      var lastErr := Unavailable;
      var attempt := 0;
      while attempt <= |backoff|
        invariant 0 <= attempt <= |backoff| + 1
        invariant DoFrom(env, backoff, messages, tape, attempt) == DoFrom(env, backoff, messages, old(tape), 0)
        invariant lastErr == Unavailable
        decreases |backoff| + 1 - attempt
      {
        if attempt > 0 {
          var done := Sleep(backoff[attempt - 1], false);
          if done {
            return Nothing(Cancelled);
          }
        }
        var r := Do(messages);
        if r.BuildFailed? {
          return Nothing(BadRequest);
        }
        if r.TransportFailed? || IsServerError(r) {
          lastErr := Unavailable;
          attempt := attempt + 1;
          continue;
        }
        return Answer(r);
      }
      return Nothing(lastErr);
    }

    method Once(messages: seq<Message>) returns (outcome: Outcome, retryAfter: nat)
      modifies this
      ensures (outcome, retryAfter, tape) == ChatOnce(env, backoff, messages, old(tape))
    {
      var got := DoWithRetry(messages);
      match got
      case Nothing(e) => return Err(e), 0;
      case Answer(r) =>
        if !r.Response? {
          return Err(Unavailable), 0;
        }
        if r.code < 200 || r.code >= 300 {
          if r.code == 401 || r.code == 403 {
            return Err(InvalidAPIKey), 0;
          } else if r.code == 429 {
            return Err(RateLimited), ClampRetryAfter(r.hint);
          } else {
            return Err(Unavailable), 0;
          }
        }
        if r.content.None? {
          return Err(Unavailable), 0;
        }
        return Ok(r.content.value), 0;
    }

    /** The final "rate limited" return after the loop is out of reach: the last round returns. */
    method Chat(messages: seq<Message>) returns (outcome: Outcome)
      modifies this
      ensures (outcome, tape) == ChatFrom(env, backoff, messages, old(tape), 0)
    {
      var attempt := 0;
      while attempt < MAX_RATE_LIMIT_ATTEMPTS
        invariant 0 <= attempt < MAX_RATE_LIMIT_ATTEMPTS
        invariant ChatFrom(env, backoff, messages, tape, attempt) == ChatFrom(env, backoff, messages, old(tape), 0)
      {
        var retryAfter;
        outcome, retryAfter := Once(messages);
        if outcome.Ok? {
          return;
        }
        if attempt < MAX_RATE_LIMIT_ATTEMPTS - 1 && retryAfter > 0 {
          var wait := retryAfter + RETRY_AFTER_BUFFER;
          if wait > MAX_RETRY_AFTER {
            wait := MAX_RETRY_AFTER;
          }
          var done := Sleep(wait, true);
          if done {
            return Err(Cancelled);
          }
          attempt := attempt + 1;
          continue;
        }
        return;
      }
      assert false;
    }

    method ChatJSONWithSchemaRetry(messages: seq<Message>, valid: string -> bool, complaint: string -> string)
      returns (outcome: Outcome)
      modifies this
      ensures (outcome, tape) == SchemaCall(env, backoff, messages, valid, complaint, old(tape))
      ensures IsSchemaRun(env, backoff, messages, valid, complaint, old(tape), outcome, tape)
    {
      SchemaCallIsSchemaRun(env, backoff, messages, valid, complaint, tape);
      outcome := Chat(messages);
      if outcome.Err? {
        return;
      }
      if valid(outcome.raw) {
        return;
      }
      var retryMessages := messages;
      retryMessages := retryMessages
        + [Message("assistant", outcome.raw), Message("user", complaint(outcome.raw))];
      outcome := Chat(retryMessages);
      if outcome.Ok? && !valid(outcome.raw) {
        return Err(SchemaInvalid);
      }
    }
  }

  function Sum(waits: seq<nat>): nat {
    if waits == [] then 0 else waits[0] + Sum(waits[1..])
  }

  /** `later` is `earlier` and at most `attempts` more attempts and `wait` more waiting, with
      `messages` sent each time; an authorisation failure among them is the very last attempt. */
  ghost predicate Extends(later: Tape, earlier: Tape, attempts: nat, wait: nat) {
    && earlier.attempts <= later.attempts
    && |later.attempts| <= |earlier.attempts| + attempts
    && later.waited <= earlier.waited + wait
    && forall k | |earlier.attempts| <= k < |later.attempts| - 1 :: !IsAuth(later.attempts[k].reply)
  }

  function LastReply(tape: Tape): Reply
    requires tape.attempts != []
  {
    tape.attempts[|tape.attempts| - 1].reply
  }

  /** What an inner loop promises: it made at least one attempt, and its result agrees with the
      last reply. */
  ghost predicate Agrees(outcome: Outcome, tape: Tape) {
    && tape.attempts != []
    && (outcome.Ok? <==> IsGood(LastReply(tape)))
    && (outcome.Ok? ==> LastReply(tape).content == Some(outcome.raw))
    && (IsAuth(LastReply(tape)) <==> outcome == Err(InvalidAPIKey))
  }

  /** What the innermost loop promises about its result and the attempts it made. */
  ghost predicate Reports(got: Got, now: Tape, tape: Tape) {
    match got
    case Answer(r) => r.Response? && |now.attempts| > |tape.attempts| && r == LastReply(now)
    case Nothing(e) =>
      && e != InvalidAPIKey && e != RateLimited
      && (|now.attempts| > |tape.attempts| ==> !LastReply(now).Response? || IsServerError(LastReply(now)))
  }

  lemma {:induction false} DoIsBounded(env: Env, backoff: seq<nat>, messages: seq<Message>, tape: Tape, attempt: nat)
    requires attempt <= |backoff| + 1
    ensures var (got, now) := DoFrom(env, backoff, messages, tape, attempt);
            && Extends(now, tape, |backoff| + 1 - attempt,
                       Sum(if attempt > 0 then backoff[attempt - 1..] else backoff))
            && (attempt == 0 ==> |now.attempts| > |tape.attempts|)
            && Reports(got, now, tape)
    decreases |backoff| + 1 - attempt
  {
    if attempt <= |backoff| {
      var rested := if attempt > 0 then Nap(tape, backoff[attempt - 1]) else tape;
      var (r, next) := Try(env, messages, rested);
      DoIsBounded(env, backoff, messages, next, attempt + 1);
    }
  }

  lemma ReadAgrees(got: Got, now: Tape, tape: Tape)
    requires Reports(got, now, tape) && |now.attempts| > |tape.attempts|
    ensures Agrees(Read(got).0, now)
    ensures Read(got).1 > 0 ==> Read(got).0 == Err(RateLimited)
  {
  }

  /** What one round of `chatOnce` costs. */
  lemma OnceIsBounded(env: Env, backoff: seq<nat>, messages: seq<Message>, tape: Tape)
    ensures var (outcome, retryAfter, now) := ChatOnce(env, backoff, messages, tape);
            && Extends(now, tape, |backoff| + 1, Sum(backoff))
            && |now.attempts| > |tape.attempts|
            && Agrees(outcome, now)
            && (retryAfter > 0 ==> outcome == Err(RateLimited))
  {
    var start: nat := 0;
    DoIsBounded(env, backoff, messages, tape, start);
    var (got, now) := DoFrom(env, backoff, messages, tape, start);
    ReadAgrees(got, now, tape);
  }

  lemma ExtendsAgain(last: Tape, middle: Tape, first: Tape, m: nat, n: nat, v: nat, w: nat)
    requires Extends(middle, first, m, v) && Extends(last, middle, n, w)
    requires |middle.attempts| > |first.attempts| && !IsAuth(LastReply(middle))
    ensures Extends(last, first, m + n, v + w)
  {
  }

  /** One chat call makes at most four rounds of attempts, and waits at most three rate-limit
      waits and four backoff schedules. */
  lemma {:induction false} ChatIsBounded(env: Env, backoff: seq<nat>, messages: seq<Message>, tape: Tape, attempt: nat)
    requires attempt < MAX_RATE_LIMIT_ATTEMPTS
    ensures var (outcome, now) := ChatFrom(env, backoff, messages, tape, attempt);
            var rounds := MAX_RATE_LIMIT_ATTEMPTS - attempt;
            && Extends(now, tape, rounds * (|backoff| + 1), (rounds - 1) * MAX_RETRY_AFTER + rounds * Sum(backoff))
            && |now.attempts| > |tape.attempts|
            && Agrees(outcome, now)
    decreases MAX_RATE_LIMIT_ATTEMPTS - attempt
  {
    var (outcome, retryAfter, next) := ChatOnce(env, backoff, messages, tape);
    OnceIsBounded(env, backoff, messages, tape);
    var rounds := MAX_RATE_LIMIT_ATTEMPTS - attempt;
    Distribute(rounds, |backoff| + 1);
    Distribute(rounds, Sum(backoff));
    Distribute(rounds - 1, MAX_RETRY_AFTER);
    if outcome.Err? && attempt < MAX_RATE_LIMIT_ATTEMPTS - 1 && retryAfter > 0 {
      var rested := LimitNap(next, RateLimitWait(retryAfter));
      ChatIsBounded(env, backoff, messages, rested, attempt + 1);
    }
  }

  lemma Distribute(n: int, d: int)
    ensures n * d == (n - 1) * d + d
  {
  }

  /** One chat call from its start. */
  lemma WholeChat(env: Env, backoff: seq<nat>, messages: seq<Message>, tape: Tape)
    ensures var (outcome, now) := ChatFrom(env, backoff, messages, tape, 0);
            && Extends(now, tape, 4 * (|backoff| + 1), 3 * MAX_RETRY_AFTER + 4 * Sum(backoff))
            && |now.attempts| > |tape.attempts|
            && Agrees(outcome, now)
  {
    ChatIsBounded(env, backoff, messages, tape, 0);
  }

  /** For every server and every pattern of cancellation, a schema-checked call makes at most
      2 * 4 * (len(backoff) + 1) attempts, waits at most 2 * (3 * MaxRetryAfter + 4 * backoff),
      and makes no attempt after a 401 or 403. */
  lemma SchemaCallIsBounded(env: Env, backoff: seq<nat>, messages: seq<Message>, valid: string -> bool,
                            complaint: string -> string, tape: Tape)
    ensures var now := SchemaCall(env, backoff, messages, valid, complaint, tape).1;
            Extends(now, tape, 2 * (4 * (|backoff| + 1)), 2 * (3 * MAX_RETRY_AFTER + 4 * Sum(backoff)))
  {
    var (first, next) := ChatFrom(env, backoff, messages, tape, 0);
    WholeChat(env, backoff, messages, tape);
    var once, wait := 4 * (|backoff| + 1), 3 * MAX_RETRY_AFTER + 4 * Sum(backoff);
    if first.Ok? && !valid(first.raw) {
      var again := WithComplaint(messages, first.raw, complaint);
      WholeChat(env, backoff, again, next);
      ExtendsAgain(ChatFrom(env, backoff, again, next, 0).1, next, tape, once, once, wait, wait);
    }
  }

  /** It returns text exactly when its last reply is a good one that passes the validator, and
      then that reply's text; a 401 or 403 is reported as a bad key. */
  lemma SchemaCallReturnsValid(env: Env, backoff: seq<nat>, messages: seq<Message>, valid: string -> bool,
                               complaint: string -> string, tape: Tape)
    ensures var (outcome, now) := SchemaCall(env, backoff, messages, valid, complaint, tape);
            && |now.attempts| > |tape.attempts|
            && (outcome.Ok? <==> IsGood(LastReply(now)) && valid(LastReply(now).content.value))
            && (outcome.Ok? ==> LastReply(now).content == Some(outcome.raw))
            && (IsAuth(LastReply(now)) <==> outcome == Err(InvalidAPIKey))
  {
    var (first, next) := ChatFrom(env, backoff, messages, tape, 0);
    WholeChat(env, backoff, messages, tape);
    if first.Ok? && !valid(first.raw) {
      WholeChat(env, backoff, WithComplaint(messages, first.raw, complaint), next);
    }
  }

  /** Every new attempt from `from` on sent `messages`. */
  ghost predicate Sends(tape: Tape, from: nat, messages: seq<Message>) {
    forall k | from <= k < |tape.attempts| :: tape.attempts[k].messages == messages
  }

  lemma {:induction false} DoSends(env: Env, backoff: seq<nat>, messages: seq<Message>, tape: Tape,
                                   attempt: nat, from: nat)
    requires attempt <= |backoff| + 1 && Sends(tape, from, messages)
    ensures Sends(DoFrom(env, backoff, messages, tape, attempt).1, from, messages)
    decreases |backoff| + 1 - attempt
  {
    if attempt <= |backoff| {
      var rested := if attempt > 0 then Nap(tape, backoff[attempt - 1]) else tape;
      DoSends(env, backoff, messages, Try(env, messages, rested).1, attempt + 1, from);
    }
  }

  lemma {:induction false} ChatSends(env: Env, backoff: seq<nat>, messages: seq<Message>, tape: Tape,
                                     attempt: nat, from: nat)
    requires attempt < MAX_RATE_LIMIT_ATTEMPTS && Sends(tape, from, messages)
    ensures Sends(ChatFrom(env, backoff, messages, tape, attempt).1, from, messages)
    decreases MAX_RATE_LIMIT_ATTEMPTS - attempt
  {
    var (outcome, retryAfter, next) := ChatOnce(env, backoff, messages, tape);
    var start: nat := 0;
    DoSends(env, backoff, messages, tape, start, from);
    if outcome.Err? && attempt < MAX_RATE_LIMIT_ATTEMPTS - 1 && retryAfter > 0 {
      ChatSends(env, backoff, messages, LimitNap(next, RateLimitWait(retryAfter)), attempt + 1, from);
    }
  }

  /** The second conversation starts only after a good reply that the validator refused, and it
      carries the first one, that reply and the complaint; nothing else is ever sent. */
  lemma SchemaCallSends(env: Env, backoff: seq<nat>, messages: seq<Message>, valid: string -> bool,
                        complaint: string -> string, tape: Tape) returns (turn: nat)
    ensures var now := SchemaCall(env, backoff, messages, valid, complaint, tape).1;
            && |tape.attempts| < turn <= |now.attempts|
            && (forall k | |tape.attempts| <= k < turn :: now.attempts[k].messages == messages)
            && (turn < |now.attempts| ==>
                  var refused := now.attempts[turn - 1].reply;
                  && IsGood(refused) && !valid(refused.content.value)
                  && Sends(now, turn, WithComplaint(messages, refused.content.value, complaint)))
  {
    var (first, next) := ChatFrom(env, backoff, messages, tape, 0);
    WholeChat(env, backoff, messages, tape);
    ChatSends(env, backoff, messages, tape, 0, |tape.attempts|);
    turn := |next.attempts|;
    if first.Ok? && !valid(first.raw) {
      var again := WithComplaint(messages, first.raw, complaint);
      WholeChat(env, backoff, again, next);
      ChatSends(env, backoff, again, next, 0, turn);
    }
  }

  // ----- the waits for rate limits, added up -----

  /** The wait a reply asks for: that of a 429 with a hint. */
  function AskedWait(r: Reply): nat {
    if r.Response? && r.code == 429 && r.hint > 0 then RateLimitWait(ClampRetryAfter(r.hint)) else 0
  }

  function AskedWaits(attempts: seq<Attempt>): nat {
    if attempts == [] then 0
    else AskedWaits(attempts[..|attempts| - 1]) + AskedWait(attempts[|attempts| - 1].reply)
  }

  lemma {:induction false} AskedWaitsOfConcat(a: seq<Attempt>, b: seq<Attempt>)
    ensures AskedWaits(a + b) == AskedWaits(a) + AskedWaits(b)
  {
    if b == [] {
      assert a + b == a;
    } else {
      assert (a + b)[..|a + b| - 1] == a + b[..|b| - 1];
      AskedWaitsOfConcat(a, b[..|b| - 1]);
    }
  }

  /** The transport loop waits for no rate limit, and only its last attempt can ask it to. */
  lemma {:induction false} DoIgnoresLimits(env: Env, backoff: seq<nat>, messages: seq<Message>, tape: Tape,
                                           attempt: nat)
    requires attempt <= |backoff| + 1
    ensures var (got, now) := DoFrom(env, backoff, messages, tape, attempt);
            && tape.attempts <= now.attempts && now.limited == tape.limited
            && AskedWaits(now.attempts) == AskedWaits(tape.attempts) + if got.Answer? then AskedWait(got.reply) else 0
    decreases |backoff| + 1 - attempt
  {
    if attempt <= |backoff| {
      var rested := if attempt > 0 then Nap(tape, backoff[attempt - 1]) else tape;
      var (r, next) := Try(env, messages, rested);
      AskedWaitsOfConcat(tape.attempts, [Attempt(messages, r)]);
      assert AskedWaits([Attempt(messages, r)]) == AskedWait(r);
      DoIgnoresLimits(env, backoff, messages, next, attempt + 1);
    }
  }

  /** One round asks for a wait exactly when it reports a hint. */
  lemma OnceAsks(env: Env, backoff: seq<nat>, messages: seq<Message>, tape: Tape)
    ensures var (outcome, retryAfter, now) := ChatOnce(env, backoff, messages, tape);
            && tape.attempts <= now.attempts && now.limited == tape.limited
            && AskedWaits(now.attempts)
               == AskedWaits(tape.attempts) + (if retryAfter > 0 then RateLimitWait(retryAfter) else 0)
            && (retryAfter > 0 ==> outcome == Err(RateLimited))
            && (outcome == Err(RateLimited) ==>
                  && now.attempts != []
                  && AskedWaits(now.attempts[..|now.attempts| - 1]) == AskedWaits(tape.attempts))
  {
    var start: nat := 0;
    DoIgnoresLimits(env, backoff, messages, tape, start);
    DoIsBounded(env, backoff, messages, tape, start);
  }

  /** The waits a chat call has asked for and not given up on: all but the one of a last reply that
      is returned as rate limited. */
  function HeededWaits(outcome: Outcome, now: Tape): nat {
    AskedWaits(if outcome == Err(RateLimited) && now.attempts != []
               then now.attempts[..|now.attempts| - 1] else now.attempts)
  }

  /** For every server and every cancellation, a chat call waits for rate limits exactly as long as
      the 429 replies before its last round ask it to. */
  lemma {:induction false} ChatWaitsAsAsked(env: Env, backoff: seq<nat>, messages: seq<Message>, tape: Tape,
                                            attempt: nat)
    requires attempt < MAX_RATE_LIMIT_ATTEMPTS
    ensures var (outcome, now) := ChatFrom(env, backoff, messages, tape, attempt);
            now.limited - tape.limited == HeededWaits(outcome, now) - AskedWaits(tape.attempts)
    decreases MAX_RATE_LIMIT_ATTEMPTS - attempt
  {
    var (outcome, retryAfter, next) := ChatOnce(env, backoff, messages, tape);
    OnceAsks(env, backoff, messages, tape);
    if outcome.Err? && attempt < MAX_RATE_LIMIT_ATTEMPTS - 1 && retryAfter > 0 {
      ChatWaitsAsAsked(env, backoff, messages, LimitNap(next, RateLimitWait(retryAfter)), attempt + 1);
    }
  }

  /** Hints of this length or less keep any three waits within the cap. */
  const SAFE_HINT: nat := 19_250_000_000

  /** No server that hints at `SAFE_HINT` or less makes one chat call wait longer than the cap. */
  lemma {:induction false} SafeHintsStayWithinCap(env: Env, backoff: seq<nat>, messages: seq<Message>,
                                                  tape: Tape, attempt: nat)
    requires attempt < MAX_RATE_LIMIT_ATTEMPTS
    requires forall n: nat :: env.reply(n).Response? && env.reply(n).code == 429 ==> env.reply(n).hint <= SAFE_HINT
    ensures var now := ChatFrom(env, backoff, messages, tape, attempt).1;
            now.limited - tape.limited <= (MAX_RATE_LIMIT_ATTEMPTS - 1 - attempt) * (MAX_RETRY_AFTER / 3)
    decreases MAX_RATE_LIMIT_ATTEMPTS - attempt
  {
    var (outcome, retryAfter, next) := ChatOnce(env, backoff, messages, tape);
    HintOfOnce(env, backoff, messages, tape);
    if outcome.Err? && attempt < MAX_RATE_LIMIT_ATTEMPTS - 1 && retryAfter > 0 {
      SafeHintsStayWithinCap(env, backoff, messages, LimitNap(next, RateLimitWait(retryAfter)), attempt + 1);
    }
  }

  /** The hint of a round is one the server gave. */
  lemma HintOfOnce(env: Env, backoff: seq<nat>, messages: seq<Message>, tape: Tape)
    requires forall n: nat :: env.reply(n).Response? && env.reply(n).code == 429 ==> env.reply(n).hint <= SAFE_HINT
    ensures var (outcome, retryAfter, now) := ChatOnce(env, backoff, messages, tape);
            retryAfter <= SAFE_HINT && now.limited == tape.limited
  {
    var start: nat := 0;
    DoAnswersFromServer(env, backoff, messages, tape, start);
    DoIgnoresLimits(env, backoff, messages, tape, start);
  }

  lemma {:induction false} DoAnswersFromServer(env: Env, backoff: seq<nat>, messages: seq<Message>, tape: Tape,
                                               attempt: nat)
    requires attempt <= |backoff| + 1
    ensures var got := DoFrom(env, backoff, messages, tape, attempt).0;
            got.Answer? ==> exists n: nat :: got.reply == env.reply(n)
    decreases |backoff| + 1 - attempt
  {
    if attempt <= |backoff| {
      var rested := if attempt > 0 then Nap(tape, backoff[attempt - 1]) else tape;
      DoAnswersFromServer(env, backoff, messages, Try(env, messages, rested).1, attempt + 1);
    }
  }

  /** A server that always answers 429 with the hint `hint` is waited for three times. */
  lemma {:induction false} SteadyHintIsHeeded(env: Env, backoff: seq<nat>, messages: seq<Message>,
                                              tape: Tape, attempt: nat, hint: nat)
    requires attempt < MAX_RATE_LIMIT_ATTEMPTS && hint > 0
    requires forall n: nat :: env.reply(n) == Response(429, hint, None) && !env.cancelled(n)
    ensures var (outcome, now) := ChatFrom(env, backoff, messages, tape, attempt);
            && outcome == Err(RateLimited)
            && now.limited - tape.limited
               == (MAX_RATE_LIMIT_ATTEMPTS - 1 - attempt) * RateLimitWait(ClampRetryAfter(hint))
    decreases MAX_RATE_LIMIT_ATTEMPTS - attempt
  {
    if attempt < MAX_RATE_LIMIT_ATTEMPTS - 1 {
      var (outcome, retryAfter, next) := ChatOnce(env, backoff, messages, tape);
      var wait := RateLimitWait(ClampRetryAfter(hint));
      assert retryAfter == ClampRetryAfter(hint) && next.limited == tape.limited;
      SteadyHintIsHeeded(env, backoff, messages, LimitNap(next, wait), attempt + 1, hint);
      Distribute(MAX_RATE_LIMIT_ATTEMPTS - 1 - attempt, wait);
    }
  }

  /** Each rate-limit wait is within the cap, but they add up. That a chat call never waits longer
      than the cap in all holds exactly against servers whose hints are at most `SAFE_HINT`: one
      that keeps hinting at more makes it wait longer. */
  lemma WaitsAddUp(env: Env, backoff: seq<nat>, messages: seq<Message>, tape: Tape, hint: nat)
    requires hint > 0 && forall n: nat :: env.reply(n) == Response(429, hint, None) && !env.cancelled(n)
    ensures var now := ChatFrom(env, backoff, messages, tape, 0).1;
            now.limited - tape.limited <= MAX_RETRY_AFTER <==> hint <= SAFE_HINT
  {
    SteadyHintIsHeeded(env, backoff, messages, tape, 0, hint);
  }

  // ----- exactly what the loops do, told by the server's replies -----

  /** A reply the transport loop tries again after. */
  predicate IsPassing(r: Reply) {
    match r
    case BuildFailed => false
    case TransportFailed => true
    case Response(code, _, _) => 500 <= code && code <= 599
  }

  /** From `before` to `after` exactly the next `m` replies were met, with `messages` sent each time. */
  ghost predicate Met(env: Env, messages: seq<Message>, before: Tape, after: Tape, m: nat) {
    var n := |before.attempts|;
    && |after.attempts| == n + m && before.attempts <= after.attempts
    && forall k | n <= k < n + m :: after.attempts[k] == Attempt(messages, env.reply(k))
  }

  /** The next `n` replies are passing; the next `n` waits are not cancelled. */
  ghost predicate PassingUpTo(env: Env, before: Tape, n: nat) {
    forall k: nat | |before.attempts| <= k < |before.attempts| + n :: IsPassing(env.reply(k))
  }

  ghost predicate UndisturbedUpTo(env: Env, before: Tape, n: nat) {
    forall k: nat | before.naps <= k < before.naps + n :: !env.cancelled(k)
  }

  /** One transport call that makes `m` attempts. All but the last met a passing reply and waited
      their backoff undisturbed. A last reply that is not passing is the answer; otherwise the call
      was cancelled in the next wait, or there is no backoff left. */
  ghost predicate TransportRun(env: Env, backoff: seq<nat>, messages: seq<Message>, before: Tape, got: Got,
                               after: Tape, m: nat)
  {
    && 1 <= m <= |backoff| + 1 && Met(env, messages, before, after, m)
    && PassingUpTo(env, before, m - 1) && UndisturbedUpTo(env, before, m - 1)
    && var last := env.reply(|before.attempts| + m - 1);
       var naps := if IsPassing(last) && m <= |backoff| then m else m - 1;
       && after == Tape(after.attempts, before.waited + Sum(backoff[..naps]), before.limited, before.naps + naps)
       && (IsPassing(last) && m <= |backoff| ==> env.cancelled(before.naps + m - 1))
       && got == (if last.BuildFailed? then Nothing(BadRequest)
                  else if !IsPassing(last) then Answer(last)
                  else if m <= |backoff| then Nothing(Cancelled)
                  else Nothing(Unavailable))
  }

  ghost predicate IsTransportRun(env: Env, backoff: seq<nat>, messages: seq<Message>, before: Tape, got: Got,
                                 after: Tape)
  {
    exists m: nat :: TransportRun(env, backoff, messages, before, got, after, m)
  }

  lemma {:induction false} SumSnoc(waits: seq<nat>, wait: nat)
    ensures Sum(waits + [wait]) == Sum(waits) + wait
  {
    if waits == [] {
      assert [] + [wait] == [wait];
    } else {
      assert (waits + [wait])[1..] == waits[1..] + [wait];
      SumSnoc(waits[1..], wait);
    }
  }

  lemma SumUpTo(waits: seq<nat>, n: nat)
    requires n < |waits|
    ensures Sum(waits[..n + 1]) == Sum(waits[..n]) + waits[n]
  {
    assert waits[..n + 1] == waits[..n] + [waits[n]];
    SumSnoc(waits[..n], waits[n]);
  }

  /** `attempt` attempts have met passing replies, and the waits between them are over. */
  ghost predicate OnTheWay(env: Env, backoff: seq<nat>, messages: seq<Message>, before: Tape, now: Tape, attempt: nat)
  {
    && attempt <= |backoff| + 1 && Met(env, messages, before, now, attempt)
    && var naps := if attempt > 0 then attempt - 1 else 0;
       PassingUpTo(env, before, attempt) && UndisturbedUpTo(env, before, naps)
       && now == Tape(now.attempts, before.waited + Sum(backoff[..naps]), before.limited, before.naps + naps)
  }

  /** The attempt after that: its wait, and the reply it meets. */
  lemma NextAttempt(env: Env, backoff: seq<nat>, messages: seq<Message>, before: Tape, now: Tape, attempt: nat)
    requires OnTheWay(env, backoff, messages, before, now, attempt) && attempt <= |backoff|
    requires attempt > 0 ==> !env.cancelled(now.naps)
    ensures var rested := if attempt > 0 then Nap(now, backoff[attempt - 1]) else now;
            var (r, next) := Try(env, messages, rested);
            && r == env.reply(|before.attempts| + attempt)
            && Met(env, messages, before, next, attempt + 1)
            && UndisturbedUpTo(env, before, attempt)
            && next == Tape(next.attempts, before.waited + Sum(backoff[..attempt]), before.limited,
                            before.naps + attempt)
  {
    if attempt > 0 { SumUpTo(backoff, attempt - 1); }
  }

  lemma {:induction false} DoFromIsTransportRun(env: Env, backoff: seq<nat>, messages: seq<Message>, before: Tape,
                                                now: Tape, attempt: nat) returns (m: nat)
    requires OnTheWay(env, backoff, messages, before, now, attempt)
    ensures var (got, after) := DoFrom(env, backoff, messages, now, attempt);
            TransportRun(env, backoff, messages, before, got, after, m)
    decreases |backoff| + 1 - attempt
  {
    if attempt > |backoff| {
      m := attempt;
    } else if attempt > 0 && env.cancelled(now.naps) {
      SumUpTo(backoff, attempt - 1);
      m := attempt;
    } else {
      NextAttempt(env, backoff, messages, before, now, attempt);
      var rested := if attempt > 0 then Nap(now, backoff[attempt - 1]) else now;
      var (r, next) := Try(env, messages, rested);
      if IsPassing(r) {
        m := DoFromIsTransportRun(env, backoff, messages, before, next, attempt + 1);
      } else {
        m := attempt + 1;
      }
    }
  }

  /** For every server and every cancellation, the transport loop is a transport run. */
  lemma DoIsTransportRun(env: Env, backoff: seq<nat>, messages: seq<Message>, tape: Tape)
    ensures var (got, after) := DoFrom(env, backoff, messages, tape, 0);
            IsTransportRun(env, backoff, messages, tape, got, after)
  {
    var start: nat := 0;
    assert Sum(backoff[..start]) == 0;
    var m := DoFromIsTransportRun(env, backoff, messages, tape, tape, start);
  }

  /** What a transport result means to the rounds above. */
  function Meaning(got: Got): Outcome {
    match got
    case Nothing(e) => Err(e)
    case Answer(Response(code, hint, content)) =>
      if code == 401 || code == 403 then Err(InvalidAPIKey)
      else if code == 429 then Err(RateLimited)
      else if 200 <= code <= 299 && content.Some? then Ok(content.value)
      else Err(Unavailable)
    case Answer(_) => Err(Unavailable)
  }

  /** A 429 that names a wait, and how long that wait is: the hint and a buffer, but at most a minute. */
  predicate NamesWait(got: Got) {
    got.Answer? && got.reply.Response? && got.reply.code == 429 && got.reply.hint > 0
  }

  function NamedWait(hint: nat): nat {
    if hint + 750_000_000 > 60_000_000_000 then 60_000_000_000 else hint + 750_000_000
  }

  /** A chat call with at most `more` rounds after this one: a round ends the call unless it met a
      429 that names a wait; then that is waited for, and the next round starts, unless this was the
      last round or the wait is cancelled. */
  ghost predicate IsChatRun(env: Env, backoff: seq<nat>, messages: seq<Message>, before: Tape, outcome: Outcome,
                            after: Tape, more: nat)
    decreases more, 1
  {
    exists got, mid :: ChatRun(env, backoff, messages, before, got, mid, outcome, after, more)
  }

  /** The same, where the first round gets `got` and ends at `mid`. */
  ghost predicate ChatRun(env: Env, backoff: seq<nat>, messages: seq<Message>, before: Tape, got: Got, mid: Tape,
                          outcome: Outcome, after: Tape, more: nat)
    decreases more, 0
  {
    && IsTransportRun(env, backoff, messages, before, got, mid)
    && if !NamesWait(got) || more == 0 then outcome == Meaning(got) && after == mid
       else
         var wait := NamedWait(got.reply.hint);
         var rested := Tape(mid.attempts, mid.waited + wait, mid.limited + wait, mid.naps + 1);
         if env.cancelled(mid.naps) then outcome == Err(Cancelled) && after == rested
         else IsChatRun(env, backoff, messages, rested, outcome, after, more - 1)
  }

  /** How one round's result is read. */
  lemma ReadIsMeaning(env: Env, backoff: seq<nat>, messages: seq<Message>, before: Tape, got: Got, after: Tape)
    requires IsTransportRun(env, backoff, messages, before, got, after)
    ensures Read(got).0 == Meaning(got)
    ensures Read(got).1 > 0 <==> NamesWait(got)
    ensures NamesWait(got) ==> RateLimitWait(Read(got).1) == NamedWait(got.reply.hint)
  {
  }

  /** A chat call by its first round. */
  lemma ChatByRound(env: Env, backoff: seq<nat>, messages: seq<Message>, tape: Tape, attempt: nat)
    returns (got: Got, mid: Tape)
    requires attempt < MAX_RATE_LIMIT_ATTEMPTS
    ensures (got, mid) == DoFrom(env, backoff, messages, tape, 0)
    ensures IsTransportRun(env, backoff, messages, tape, got, mid)
    ensures ChatFrom(env, backoff, messages, tape, attempt)
            == if !NamesWait(got) || attempt == MAX_RATE_LIMIT_ATTEMPTS - 1 then (Meaning(got), mid)
               else if env.cancelled(mid.naps) then (Err(Cancelled), LimitNap(mid, NamedWait(got.reply.hint)))
               else ChatFrom(env, backoff, messages, LimitNap(mid, NamedWait(got.reply.hint)), attempt + 1)
  {
    var start: nat := 0;
    var (g, m) := DoFrom(env, backoff, messages, tape, start);
    got, mid := g, m;
    DoIsTransportRun(env, backoff, messages, tape);
    ReadIsMeaning(env, backoff, messages, tape, got, mid);
    MeaningOfWait(got);
  }

  lemma OneRoundThen(env: Env, backoff: seq<nat>, messages: seq<Message>, before: Tape, got: Got, mid: Tape,
                     outcome: Outcome, after: Tape, more: nat)
    requires IsTransportRun(env, backoff, messages, before, got, mid)
    requires if !NamesWait(got) || more == 0 then outcome == Meaning(got) && after == mid
             else if env.cancelled(mid.naps) then
               outcome == Err(Cancelled) && after == LimitNap(mid, NamedWait(got.reply.hint))
             else
               IsChatRun(env, backoff, messages, LimitNap(mid, NamedWait(got.reply.hint)), outcome, after, more - 1)
    ensures IsChatRun(env, backoff, messages, before, outcome, after, more)
  {
    assert ChatRun(env, backoff, messages, before, got, mid, outcome, after, more);
  }

  lemma {:induction false} ChatIsChatRun(env: Env, backoff: seq<nat>, messages: seq<Message>, tape: Tape, attempt: nat)
    requires attempt < MAX_RATE_LIMIT_ATTEMPTS
    ensures var (outcome, after) := ChatFrom(env, backoff, messages, tape, attempt);
            IsChatRun(env, backoff, messages, tape, outcome, after, MAX_RATE_LIMIT_ATTEMPTS - 1 - attempt)
    decreases MAX_RATE_LIMIT_ATTEMPTS - attempt
  {
    var more: nat := MAX_RATE_LIMIT_ATTEMPTS - 1 - attempt;
    var got, mid := ChatByRound(env, backoff, messages, tape, attempt);
    if NamesWait(got) && more > 0 && !env.cancelled(mid.naps) {
      ChatIsChatRun(env, backoff, messages, LimitNap(mid, NamedWait(got.reply.hint)), attempt + 1);
    }
    var (outcome, after) := ChatFrom(env, backoff, messages, tape, attempt);
    OneRoundThen(env, backoff, messages, tape, got, mid, outcome, after, more);
  }

  lemma MeaningOfWait(got: Got)
    ensures NamesWait(got) ==> Meaning(got) == Err(RateLimited)
  {
  }

  /** A schema-checked call: one conversation of four rounds, and a second one exactly if the first
      brought a text that the validator refuses. */
  ghost predicate IsSchemaRun(env: Env, backoff: seq<nat>, messages: seq<Message>, valid: string -> bool,
                              complaint: string -> string, before: Tape, outcome: Outcome, after: Tape)
  {
    exists first, mid ::
      && IsChatRun(env, backoff, messages, before, first, mid, 3)
      && if first.Err? || valid(first.raw) then outcome == first && after == mid
         else
           var again := messages + [Message("assistant", first.raw), Message("user", complaint(first.raw))];
           exists second ::
             && IsChatRun(env, backoff, again, mid, second, after, 3)
             && outcome == if second.Ok? && !valid(second.raw) then Err(SchemaInvalid) else second
  }

  /** For every server, every cancellation and every validator, the call does exactly that. */
  lemma SchemaCallIsSchemaRun(env: Env, backoff: seq<nat>, messages: seq<Message>, valid: string -> bool,
                              complaint: string -> string, tape: Tape)
    ensures var (outcome, after) := SchemaCall(env, backoff, messages, valid, complaint, tape);
            IsSchemaRun(env, backoff, messages, valid, complaint, tape, outcome, after)
  {
    var start: nat := 0;
    var (first, mid) := ChatFrom(env, backoff, messages, tape, start);
    ChatIsChatRun(env, backoff, messages, tape, start);
    if first.Ok? && !valid(first.raw) {
      var again := WithComplaint(messages, first.raw, complaint);
      var (second, last) := ChatFrom(env, backoff, again, mid, start);
      ChatIsChatRun(env, backoff, again, mid, start);
      SchemaRunAgain(env, backoff, messages, valid, complaint, tape, first, mid, second, last);
    } else {
      SchemaRunOnce(env, backoff, messages, valid, complaint, tape, first, mid);
    }
  }

  lemma SchemaRunOnce(env: Env, backoff: seq<nat>, messages: seq<Message>, valid: string -> bool,
                      complaint: string -> string, before: Tape, first: Outcome, mid: Tape)
    requires IsChatRun(env, backoff, messages, before, first, mid, 3) && (first.Err? || valid(first.raw))
    ensures IsSchemaRun(env, backoff, messages, valid, complaint, before, first, mid)
  {
  }

  lemma SchemaRunAgain(env: Env, backoff: seq<nat>, messages: seq<Message>, valid: string -> bool,
                       complaint: string -> string, before: Tape, first: Outcome, mid: Tape,
                       second: Outcome, after: Tape)
    requires IsChatRun(env, backoff, messages, before, first, mid, 3) && first.Ok? && !valid(first.raw)
    requires IsChatRun(env, backoff, WithComplaint(messages, first.raw, complaint), mid, second, after, 3)
    ensures IsSchemaRun(env, backoff, messages, valid, complaint, before,
                        if second.Ok? && !valid(second.raw) then Err(SchemaInvalid) else second, after)
  {
  }

  /** A server that settles within the schedule is answered: without cancellation, the first reply
      that is not passing ends the transport loop after exactly the attempts and waits before it. */
  lemma FirstSettledReplyAnswers(env: Env, backoff: seq<nat>, messages: seq<Message>, tape: Tape, k: nat)
    requires k <= |backoff| && PassingUpTo(env, tape, k) && UndisturbedUpTo(env, tape, k)
    requires var r := env.reply(|tape.attempts| + k); !IsPassing(r) && !r.BuildFailed?
    ensures var (got, after) := DoFrom(env, backoff, messages, tape, 0);
            && got == Answer(env.reply(|tape.attempts| + k)) && Met(env, messages, tape, after, k + 1)
            && after.waited == tape.waited + Sum(backoff[..k])
  {
    DoIsTransportRun(env, backoff, messages, tape);
    var start: nat := 0;
    var (got, after) := DoFrom(env, backoff, messages, tape, start);
    var m: nat :| TransportRun(env, backoff, messages, tape, got, after, m);
    assert m == k + 1;
  }

  /** One that never does is given up after the whole schedule. */
  lemma NoSettledReplyIsUnavailable(env: Env, backoff: seq<nat>, messages: seq<Message>, tape: Tape)
    requires PassingUpTo(env, tape, |backoff| + 1) && UndisturbedUpTo(env, tape, |backoff|)
    ensures var (got, after) := DoFrom(env, backoff, messages, tape, 0);
            && got == Nothing(Unavailable) && Met(env, messages, tape, after, |backoff| + 1)
            && after.waited == tape.waited + Sum(backoff)
  {
    DoIsTransportRun(env, backoff, messages, tape);
    var start: nat := 0;
    var (got, after) := DoFrom(env, backoff, messages, tape, start);
    var m: nat :| TransportRun(env, backoff, messages, tape, got, after, m);
    assert IsPassing(env.reply(|tape.attempts| + m - 1));
    assert m == |backoff| + 1 && backoff[..|backoff|] == backoff;
  }

  /** The whole call against such a server: a settled reply that names no wait decides it, unless it
      is a text the validator refuses. */
  lemma SettledReplyDecides(env: Env, backoff: seq<nat>, messages: seq<Message>, valid: string -> bool,
                            complaint: string -> string, tape: Tape, k: nat)
    requires k <= |backoff| && PassingUpTo(env, tape, k) && UndisturbedUpTo(env, tape, k)
    requires var r := env.reply(|tape.attempts| + k);
             && !IsPassing(r) && !r.BuildFailed? && !NamesWait(Answer(r))
             && (IsGood(r) ==> valid(r.content.value))
    ensures var (outcome, after) := SchemaCall(env, backoff, messages, valid, complaint, tape);
            && outcome == Meaning(Answer(env.reply(|tape.attempts| + k)))
            && Met(env, messages, tape, after, k + 1) && after.waited == tape.waited + Sum(backoff[..k])
  {
    var start: nat := 0;
    FirstSettledReplyAnswers(env, backoff, messages, tape, k);
    var got, mid := ChatByRound(env, backoff, messages, tape, start);
  }
}
