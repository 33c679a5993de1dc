/** The chat page (`src/app/page.tsx`): the component's state and the handlers that move it —
    the start-up readiness check, initialisation, status polling and sending a message. The
    answers of `/api/status`, `/api/init` and `/api/chat`, and the values of `Date.now()`, are
    given to the handlers as arguments. */
module ChatPage {
  import opened Wrappers
  import opened Text

  datatype Sender = User | Bot | Typing

  /** A chat message; `id` is the `Date.now()` of its creation. */
  datatype Message = Message(id: int, text: string, sender: Sender)

  /** What one `/api/status` check yields: its `ready` and `status` fields, or a throw. */
  datatype StatusReply = StatusReply(ready: bool, status: string) | StatusUnreachable

  /** What `/api/init` yields: an ok response, an error response with its `error` field, or a throw
      with its message. */
  datatype InitReply = InitOk | InitRejected(error: Option<string>) | InitUnreachable(message: string)

  /** What `/api/chat` yields: an ok response with its `reply`, an error response with its `error`
      field, or a throw with its message. */
  datatype ChatHttp = ChatOk(reply: string) | ChatRejected(error: Option<string>) | ChatUnreachable(message: string)

  const Initializing: string := "Initializing..."
  const InitializingSystem: string := "Initializing system and loading company information..."
  const ReadyText: string := "Ready! How can I help you today?"
  const Welcome: string := "Hello! I'm your company assistant. I'm here to help you with any questions about our company, policies, services, or any other information you might need. What would you like to know?"
  const InitFailure: string := "Sorry, I couldn't initialize. This might be due to server configuration issues. Please try refreshing the page, or contact support if the problem persists."
  const FailedToInitialize: string := "Failed to initialize"
  const VerifyRetrying: string := "Error verifying knowledge base. Retrying..."
  const Preparing: string := "Preparing knowledge base..."
  const Processing: string := "Processing knowledge base..."
  const CheckingStatus: string := "Checking status..."
  const CheckingKnowledgeBase: string := "Checking knowledge base status..."
  const StillPreparing: string := "Still preparing knowledge base. You can ask general questions meanwhile."
  const Thinking: string := "Thinking..."
  const FailedToGetResponse: string := "Failed to get response"
  const ErrorPrefix: string := "❌ Sorry, I encountered an error: "

  /** How many checks follow initialisation, and a processing error. */
  const LongPoll: nat := 60

  // ----- status polling -----

  predicate IsReadyReply(r: StatusReply) {
    r.StatusReply? && r.ready
  }

  /** The status text after one check that did not report ready. */
  function StatusText(current: string, r: StatusReply): (s: string)
    requires !IsReadyReply(r)
    ensures s == current || s in {VerifyRetrying, Preparing, Processing, CheckingStatus}
    ensures r.StatusUnreachable? ==> s == CheckingStatus
    ensures r.StatusReply? && r.status == "error" ==> s == VerifyRetrying
    ensures r.StatusReply? && r.status == "not_initialized" ==> s == Preparing
    ensures r.StatusReply? && r.status == "in_progress" ==> s == Processing
    ensures r.StatusReply? && r.status !in {"error", "not_initialized", "in_progress"} ==> s == current
  {
    match r
    case StatusUnreachable => CheckingStatus
    case StatusReply(_, st) =>
      if st == "error" then VerifyRetrying
      else if st == "not_initialized" then Preparing
      else if st == "in_progress" then Processing
      else current
  }

  /** The index of the first of the first `n` checks that reports ready. */
  function FirstReady(replies: nat -> StatusReply, n: nat): (k: Option<nat>)
    ensures k.Some? ==> k.value < n && IsReadyReply(replies(k.value))
  {
    if n == 0 then None
    else match FirstReady(replies, n - 1)
      case Some(k) => Some(k)
      case None => if IsReadyReply(replies(n - 1)) then Some(n - 1) else None
  }

  /** `FirstReady` finds the earliest ready check, and finds one whenever there is one. */
  lemma {:induction false} FirstReadyIsFirst(replies: nat -> StatusReply, n: nat, k: nat)
    requires k < n && IsReadyReply(replies(k))
    ensures FirstReady(replies, n).Some? && FirstReady(replies, n).value <= k
  {
    if k < n - 1 {
      FirstReadyIsFirst(replies, n - 1, k);
    }
  }

  /** No ready check among the first `n` means no ready check before any later bound either. */
  lemma {:induction false} FirstReadyNone(replies: nat -> StatusReply, n: nat, k: nat)
    requires FirstReady(replies, n).None? && k < n
    ensures !IsReadyReply(replies(k))
  {
    if IsReadyReply(replies(k)) {
      FirstReadyIsFirst(replies, n, k);
    }
  }

  /** The status text after `n` checks none of which reported ready. */
  function StatusAfter(current: string, replies: nat -> StatusReply, n: nat): string
    requires FirstReady(replies, n).None?
  {
    if n == 0 then current
    else StatusText(StatusAfter(current, replies, n - 1), replies(n - 1))
  }

  /** Polling without success leaves either the text it started with or one of the four polling texts. */
  lemma {:induction false} StatusAfterRange(current: string, replies: nat -> StatusReply, n: nat)
    requires FirstReady(replies, n).None?
    ensures StatusAfter(current, replies, n) == current ||
            StatusAfter(current, replies, n) in {VerifyRetrying, Preparing, Processing, CheckingStatus}
  {
    if n > 0 {
      StatusAfterRange(current, replies, n - 1);
    }
  }

  // ----- error texts -----

  /** The `error` field of a response, when it is truthy. */
  function ErrorField(error: Option<string>, fallback: string): (msg: string)
    ensures error.Some? && error.value != "" ==> msg == error.value
    ensures error.None? || error.value == "" ==> msg == fallback
  {
    if error.Some? && error.value != "" then error.value else fallback
  }

  /** The message of the error that ends initialisation, for a reply that is not ok. */
  function InitError(reply: InitReply): string
    requires !reply.InitOk?
  {
    match reply
    case InitRejected(e) => ErrorField(e, FailedToInitialize)
    case InitUnreachable(m) => m
  }

  /** The message of a failed chat request: the response's error text or the thrown message. */
  function ChatError(reply: ChatHttp): string
    requires !reply.ChatOk?
  {
    match reply
    case ChatRejected(e) => ErrorField(e, FailedToGetResponse)
    case ChatUnreachable(m) => m
  }

  /** An error that means the knowledge base is still being prepared, so the page polls instead of
      showing it. */
  predicate IsProcessing(msg: string) {
    Contains(Lower(msg), "still being processed") || Contains(Lower(msg), "not ready")
  }

  /** A mention of either phrase, in any ASCII case and anywhere in the message, makes it a
      processing error. */
  lemma MentionIsProcessing(p: string, mention: string, q: string)
    requires Lower(mention) == "still being processed" || Lower(mention) == "not ready"
    ensures IsProcessing(p + mention + q)
  {
    var s := p + mention + q;
    var l, n := Lower(s), Lower(mention);
    forall k | 0 <= k < |n| ensures l[|p|..|p| + |n|][k] == n[k] {
      assert s[|p| + k] == mention[k];
    }
    assert l[|p|..|p| + |n|] == n;
    assert OccursAt(l, n, |p|);
  }

  // ----- the typing indicator -----

  /** The messages whose id differs from `id`, in order: how the page drops the typing indicator. */
  function RemoveId(ms: seq<Message>, id: int): (r: seq<Message>)
    ensures |r| <= |ms|
  {
    if |ms| == 0 then []
    else if ms[|ms| - 1].id == id then RemoveId(ms[..|ms| - 1], id)
    else RemoveId(ms[..|ms| - 1], id) + [ms[|ms| - 1]]
  }

  /** The filter keeps exactly the messages whose id differs. */
  lemma {:induction false} RemoveIdKeeps(ms: seq<Message>, id: int, m: Message)
    ensures m in RemoveId(ms, id) <==> m in ms && m.id != id
  {
    if |ms| > 0 {
      var init := ms[..|ms| - 1];
      RemoveIdKeeps(init, id, m);
      assert ms == init + [ms[|ms| - 1]];
    }
  }

  /** Filtering a list in two parts is filtering each part. */
  lemma {:induction false} RemoveIdAppend(a: seq<Message>, b: seq<Message>, id: int)
    ensures RemoveId(a + b, id) == RemoveId(a, id) + RemoveId(b, id)
    decreases |b|
  {
    if |b| == 0 {
      assert a + b == a;
    } else {
      var ab := a + b;
      assert ab[..|ab| - 1] == a + b[..|b| - 1];
      assert ab[|ab| - 1] == b[|b| - 1];
      RemoveIdAppend(a, b[..|b| - 1], id);
    }
  }

  /** Filtering twice is filtering once, so the second filter of a failed request changes nothing. */
  lemma {:induction false} RemoveIdIdempotent(ms: seq<Message>, id: int)
    ensures RemoveId(RemoveId(ms, id), id) == RemoveId(ms, id)
  {
    if |ms| > 0 {
      var init := ms[..|ms| - 1];
      RemoveIdIdempotent(init, id);
      if ms[|ms| - 1].id != id {
        var r := RemoveId(init, id);
        assert (r + [ms[|ms| - 1]])[..|r|] == r;
      }
    }
  }

  /** The filter after a request removes the typing indicator exactly when its id equals the
      `Date.now()` taken as `typingId`, and takes the user's message with it when that one's
      clock value equals it too. */
  lemma TypingFilter(earlier: seq<Message>, user: Message, typing: Message, typingId: int)
    ensures RemoveId(earlier + [user, typing], typingId) ==
      RemoveId(earlier, typingId) + (if user.id == typingId then [] else [user]) +
      (if typing.id == typingId then [] else [typing])
  {
    RemoveIdAppend(earlier, [user, typing], typingId);
    RemoveIdAppend([user], [typing], typingId);
    assert [user, typing] == [user] + [typing];
    assert [user][..0] == [] && [typing][..0] == [];
  }

  /** Whether a chat reply makes the page poll instead of answering: an error that is a processing error. */
  predicate Polls(reply: ChatHttp) {
    !reply.ChatOk? && IsProcessing(ChatError(reply))
  }

  /** What a request adds to the chat once the typing indicator is gone: the reply, the error with
      its prefix, or nothing for a processing error. */
  function BotMessages(reply: ChatHttp, now: int): (ms: seq<Message>)
    ensures |ms| == (if Polls(reply) then 0 else 1)
    ensures forall m :: m in ms ==> m.sender == Bot && m.id == now
    ensures reply.ChatOk? ==> ms == [Message(now, reply.reply, Bot)]
    ensures !reply.ChatOk? && !Polls(reply) ==> ms == [Message(now, ErrorPrefix + ChatError(reply), Bot)]
  {
    if reply.ChatOk? then [Message(now, reply.reply, Bot)]
    else if IsProcessing(ChatError(reply)) then []
    else [Message(now, ErrorPrefix + ChatError(reply), Bot)]
  }

  /** The notice `initializeSystem` adds to an empty chat. */
  function InitNotice(reply: InitReply): string {
    if reply.InitOk? then Welcome else InitFailure
  }

  /** What start-up adds to a chat that was empty when the page rendered, once `/api/init` was
      called: its welcome or failure notice, then a welcome when a later check reports ready — so
      a successful initialisation followed by a ready check greets twice. */
  function BootNotices(init: InitReply, becameReady: bool, clock: nat -> int): seq<Message> {
    [Message(clock(0), InitNotice(init), Bot)] +
    (if becameReady then [Message(clock(1), Welcome, Bot)] else [])
  }

  // ----- the component -----

  class ChatClient {
    var messages: seq<Message>
    var input: string
    var isLoading: bool
    var isInitialized: bool
    var status: string

    /** The state of the page when it is first rendered. */
    constructor()
      ensures messages == [] && input == "" && !isLoading && !isInitialized && status == Initializing
    {
      messages := [];
      input := "";
      isLoading := false;
      isInitialized := false;
      status := Initializing;
    }

    /** `addMessage`: append a message stamped with the clock value `now`. */
    method AddMessage(text: string, sender: Sender, now: int)
      modifies this
      ensures messages == old(messages) + [Message(now, text, sender)]
      ensures input == old(input) && isLoading == old(isLoading) && isInitialized == old(isInitialized) && status == old(status)
    {
      messages := messages + [Message(now, text, sender)];
    }

    /** The text field's `onChange`. */
    method SetInput(text: string)
      modifies this
      ensures input == text
      ensures messages == old(messages) && isLoading == old(isLoading) && isInitialized == old(isInitialized) && status == old(status)
    {
      input := text;
    }

    /** `pollStatus`: up to `maxAttempts` checks, `replies(k)` being the answer to the `k`-th;
        stop at the first ready one. `attempts` counts the checks made. */
    method PollStatus(replies: nat -> StatusReply, maxAttempts: nat) returns (ready: bool, attempts: nat)
      modifies this
      ensures ready <==> FirstReady(replies, maxAttempts).Some?
      ensures ready ==> attempts == FirstReady(replies, maxAttempts).value + 1 && isInitialized && status == ReadyText
      ensures !ready ==>
        (attempts == maxAttempts && isInitialized == old(isInitialized) &&
         status == StatusAfter(old(status), replies, maxAttempts))
      ensures messages == old(messages) && input == old(input) && isLoading == old(isLoading)
    {
      attempts := 0;
      var initial := status;
      while attempts < maxAttempts
        invariant attempts <= maxAttempts
        invariant FirstReady(replies, attempts).None?
        invariant status == StatusAfter(initial, replies, attempts)
        invariant isInitialized == old(isInitialized)
        invariant messages == old(messages) && input == old(input) && isLoading == old(isLoading)
      {
        var r := replies(attempts);
        if IsReadyReply(r) {
          isInitialized := true;
          status := ReadyText;
          attempts := attempts + 1;
          FirstReadyPrefix(replies, attempts - 1, maxAttempts);
          return true, attempts;
        }
        status := StatusText(status, r);
        attempts := attempts + 1;
      }
      return false, attempts;
    }

    /** `initializeSystem`: call `/api/init`. `renderedEmpty` is whether the render that created the
        handler had no messages; `now` is the clock value of the message it may add. */
    method InitializeSystem(renderedEmpty: bool, reply: InitReply, now: int)
      modifies this
      ensures reply.InitOk? ==> isInitialized && status == ReadyText
      ensures !reply.InitOk? ==> isInitialized == old(isInitialized) && status == "Error: " + InitError(reply)
      ensures messages == old(messages) +
        (if !renderedEmpty then [] else [Message(now, InitNotice(reply), Bot)])
      ensures input == old(input) && isLoading == old(isLoading)
    {
      status := InitializingSystem;
      if reply.InitOk? {
        isInitialized := true;
        status := ReadyText;
        if renderedEmpty {
          AddMessage(Welcome, Bot, now);
        }
      } else {
        status := "Error: " + InitError(reply);
        if renderedEmpty {
          AddMessage(InitFailure, Bot, now);
        }
      }
    }

    /** The single check `checkReadinessAndInit` starts with. */
    method CheckOnce(first: StatusReply) returns (ready: bool)
      modifies this
      ensures ready <==> IsReadyReply(first)
      ensures ready ==> isInitialized && status == ReadyText
      ensures !ready ==> isInitialized == old(isInitialized) && status == StatusText(old(status), first)
      ensures messages == old(messages) && input == old(input) && isLoading == old(isLoading)
    {
      var replies: nat -> StatusReply := _ => first;
      var attempts;
      ready, attempts := PollStatus(replies, 1);
      if IsReadyReply(first) {
        FirstReadyIsFirst(replies, 1, 0);
      } else {
        assert StatusAfter(old(status), replies, 1) == StatusText(old(status), first);
      }
    }

    /** `checkReadinessAndInit`: one check (`first`); if it is not ready, initialise (`init`) and
        poll up to `LongPoll` times (`later`). `clock(0)` and `clock(1)` stamp the messages added.
        `initialised` says whether `/api/init` was called. */
    method CheckReadinessAndInit(renderedEmpty: bool, first: StatusReply, init: InitReply,
                                 later: nat -> StatusReply, clock: nat -> int) returns (initialised: bool)
      modifies this
      ensures initialised <==> !IsReadyReply(first)
      ensures !initialised ==>
        (isInitialized && status == ReadyText &&
         messages == old(messages) + (if renderedEmpty then [Message(clock(0), Welcome, Bot)] else []))
      ensures initialised ==>
        isInitialized == (old(isInitialized) || init.InitOk? || FirstReady(later, LongPoll).Some?)
      ensures initialised ==> status == (if FirstReady(later, LongPoll).Some? then ReadyText else StillPreparing)
      ensures initialised && !renderedEmpty ==> messages == old(messages)
      ensures initialised && renderedEmpty ==>
        messages == old(messages) + BootNotices(init, FirstReady(later, LongPoll).Some?, clock)
      ensures input == old(input) && isLoading == old(isLoading)
    {
      status := CheckingKnowledgeBase;
      var ready := CheckOnce(first);
      if ready {
        if renderedEmpty {
          AddMessage(Welcome, Bot, clock(0));
        }
        return false;
      }
      InitThenPoll(renderedEmpty, init, later, clock);
      return true;
    }

    /** The second half of `checkReadinessAndInit`: initialise, then poll up to `LongPoll` times. */
    method InitThenPoll(renderedEmpty: bool, init: InitReply, later: nat -> StatusReply, clock: nat -> int)
      modifies this
      ensures isInitialized == (old(isInitialized) || init.InitOk? || FirstReady(later, LongPoll).Some?)
      ensures status == (if FirstReady(later, LongPoll).Some? then ReadyText else StillPreparing)
      ensures !renderedEmpty ==> messages == old(messages)
      ensures renderedEmpty ==> messages == old(messages) + BootNotices(init, FirstReady(later, LongPoll).Some?, clock)
      ensures input == old(input) && isLoading == old(isLoading)
    {
      InitializeSystem(renderedEmpty, init, clock(0));
      FinishBoot(renderedEmpty, later, clock(1));
    }

    /** The end of `checkReadinessAndInit` after initialisation: poll, then greet or say the
        knowledge base is still being prepared. */
    method FinishBoot(renderedEmpty: bool, later: nat -> StatusReply, now: int)
      modifies this
      ensures isInitialized == (old(isInitialized) || FirstReady(later, LongPoll).Some?)
      ensures status == (if FirstReady(later, LongPoll).Some? then ReadyText else StillPreparing)
      ensures messages == old(messages) +
        (if renderedEmpty && FirstReady(later, LongPoll).Some? then [Message(now, Welcome, Bot)] else [])
      ensures input == old(input) && isLoading == old(isLoading)
    {
      var becameReady, _ := PollStatus(later, LongPoll);
      if !becameReady {
        status := StillPreparing;
      } else if renderedEmpty {
        AddMessage(Welcome, Bot, now);
      }
    }

    /** `sendMessage`: `reply` is what `/api/chat` yields, `replies` the checks of the polling a
        processing error starts, and `clock(k)` the `k`-th `Date.now()` of the handler: the user's
        message, `typingId`, the typing indicator and the bot's message. `sent` says whether the
        request was made. */
    method SendMessage(reply: ChatHttp, replies: nat -> StatusReply, clock: nat -> int) returns (sent: bool)
      modifies this
      ensures sent <==> Trim(old(input)) != [] && !old(isLoading) && old(isInitialized)
      ensures (Trim(old(input)) == [] || old(isLoading)) ==>
        (messages == old(messages) && input == old(input) && isLoading == old(isLoading) &&
         isInitialized == old(isInitialized) && status == old(status))
      ensures (Trim(old(input)) != [] && !old(isLoading) && !old(isInitialized)) ==>
        (messages == old(messages) && input == old(input) && !isLoading && !isInitialized && status == Processing)
      ensures sent ==> input == "" && !isLoading
      ensures sent ==>
        messages == RemoveId(old(messages) + [Message(clock(0), Trim(old(input)), User), Message(clock(2), Thinking, Typing)], clock(1)) +
                    BotMessages(reply, clock(3))
      ensures sent && Polls(reply) ==>
        (isInitialized == FirstReady(replies, LongPoll).Some? &&
         status == (if FirstReady(replies, LongPoll).Some? then ReadyText else StatusAfter(Processing, replies, LongPoll)))
      ensures sent && !Polls(reply) ==> isInitialized && status == old(status)
    {
      if Trim(input) == [] || isLoading {
        return false;
      }
      if !isInitialized {
        status := Processing;
        return false;
      }
      var message := Trim(input);
      input := "";
      AddMessage(message, User, clock(0));
      var typingId := clock(1);
      AddMessage(Thinking, Typing, clock(2));
      assert messages == old(messages) + [Message(clock(0), message, User), Message(clock(2), Thinking, Typing)];
      Request(reply, replies, typingId, clock(3));
      return true;
    }

    /** The request of `sendMessage`, from setting `isLoading` to clearing it again: remove the
        typing indicator (the messages stamped `typingId`), then add the reply or the error, or
        poll after a processing error. */
    method Request(reply: ChatHttp, replies: nat -> StatusReply, typingId: int, now: int)
      modifies this
      ensures messages == RemoveId(old(messages), typingId) + BotMessages(reply, now)
      ensures Polls(reply) ==>
        (isInitialized == FirstReady(replies, LongPoll).Some? &&
         status == (if FirstReady(replies, LongPoll).Some? then ReadyText else StatusAfter(Processing, replies, LongPoll)))
      ensures !Polls(reply) ==> isInitialized == old(isInitialized) && status == old(status)
      ensures input == old(input) && !isLoading
    {
      isLoading := true;
      messages := RemoveId(messages, typingId);
      if reply.ChatOk? {
        AddMessage(reply.reply, Bot, now);
      } else {
        var errorMsg := ChatError(reply);
        if IsProcessing(errorMsg) {
          isInitialized := false;
          status := Processing;
          var _, _ := PollStatus(replies, LongPoll);
        } else {
          if reply.ChatRejected? {
            RemoveIdIdempotent(old(messages), typingId);
            messages := RemoveId(messages, typingId);
          }
          AddMessage(ErrorPrefix + errorMsg, Bot, now);
        }
      }
      isLoading := false;
    }
  }

  /** Checks made before the first ready one, in a longer run, are still not ready: the earliest
      ready check of `n` checks is the earliest of any longer run. */
  lemma {:induction false} FirstReadyPrefix(replies: nat -> StatusReply, k: nat, n: nat)
    requires k < n && FirstReady(replies, k).None? && IsReadyReply(replies(k))
    ensures FirstReady(replies, n) == Some(k)
  {
    if n > k + 1 {
      FirstReadyPrefix(replies, k, n - 1);
    }
  }
}
