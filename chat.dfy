/** The two interrogation rooms: per-role turn histories, the producers that push work
    onto the API queue (`renderChatHistory`, `handleChatSubmit`), the history excerpt
    sent with each question, and one run of a dialogue task (`fetchInitialStatement`,
    `fetchAiResponse`) from the queue's drain to its `finally`. */
module Chat {
  import opened Wrappers
  import opened Text
  import opened Roles
  import opened Retry
  import opened Stream
  import opened Queue

  datatype Speaker = User | Ai

  /** An entry of `state.chatHistory[role]`. */
  datatype Turn = Turn(speaker: Speaker, text: string)

  /** The other room. */
  function Other(r: Role): (o: Role)
    ensures o != r
  {
    if r == Prosecutor then Defendant else Prosecutor
  }

  // ---------------------------------------------------------------------------
  // Messages shown in a room
  // ---------------------------------------------------------------------------

  const MissingKeyMessage: string := "API 키 설정이 되어있지 않습니다."
  const ErrorPrefix: string := "오류가 발생했습니다: "
  /** The rate-limit message of the opening statement (asks for a page reload). */
  const InitialRateLimitMessage: string := "API 요청 제한을 초과했습니다. 약 1분 뒤에 페이지를 새로고침 해주세요."
  /** The rate-limit message of a reply (asks to send the question again). */
  const ReplyRateLimitMessage: string := "API 요청 제한을 초과했습니다. 약 1분 뒤에 다시 채팅을 전송해주세요."

  function ServerErrorMessage(status: nat): string {
    "API 오류: " + NatToString(status) + " (서버 응답 오류)"
  }

  /** The error a task throws after its request loop, if any: the rate-limit text of its
      call site, the server-error text with the status, or the message of the rejected
      request. */
  function FailureMessage(t: Task, o: Outcome): (m: Option<string>)
    ensures m.None? <==> o.Accepted?
  {
    match o
    case Accepted(_) => None
    case RateLimitExhausted =>
      Some(if t.InitialStatement? then InitialRateLimitMessage else ReplyRateLimitMessage)
    case ServerError(s) => Some(ServerErrorMessage(s))
    case Thrown(msg) => Some(msg)
  }

  /** The rate-limit texts differ between the two call sites and from every server-error
      text, so the user can always tell exhaustion from a server failure. */
  lemma FailureMessagesDistinct(status: nat)
    ensures InitialRateLimitMessage != ReplyRateLimitMessage
    ensures ServerErrorMessage(status) != InitialRateLimitMessage
    ensures ServerErrorMessage(status) != ReplyRateLimitMessage
  {
    var s := ServerErrorMessage(status);
    assert s[4] == '오';
    assert InitialRateLimitMessage[4] == '요' && ReplyRateLimitMessage[4] == '요';
    assert InitialRateLimitMessage[30] != ReplyRateLimitMessage[30];
  }

  // ---------------------------------------------------------------------------
  // The history excerpt (historyContext)
  // ---------------------------------------------------------------------------

  const UserLabel: string := "사용자(판사)"

  /** A user turn is labelled as the judge, an AI turn with the room's role name. */
  function SpeakerLabel(role: Role, s: Speaker): string {
    if s == User then UserLabel else RoleName(role)
  }

  function HistoryLine(role: Role, t: Turn): string {
    SpeakerLabel(role, t.speaker) + ": " + t.text
  }

  function HistoryLines(role: Role, turns: seq<Turn>): (r: seq<string>)
    ensures |r| == |turns|
  {
    if turns == [] then [] else [HistoryLine(role, turns[0])] + HistoryLines(role, turns[1..])
  }

  /** `slice(0, -1)`: everything but the last element, nothing for an empty list. */
  function AllButLast<T>(xs: seq<T>): (r: seq<T>)
    ensures |r| == if xs == [] then 0 else |xs| - 1
  {
    if xs == [] then [] else xs[..|xs| - 1]
  }

  /** `historyContext`: every turn but the last, one labelled line each, joined with
      newlines. */
  function HistoryContext(role: Role, turns: seq<Turn>): (r: string)
    ensures |turns| <= 1 ==> r == ""
  {
    Join(HistoryLines(role, AllButLast(turns)), "\n")
  }

  lemma {:induction false} HistoryLinesAt(role: Role, turns: seq<Turn>, i: nat)
    requires i < |turns|
    ensures HistoryLines(role, turns)[i] == HistoryLine(role, turns[i])
  {
    if i > 0 {
      HistoryLinesAt(role, turns[1..], i - 1);
    }
  }

  /** The last turn never reaches the excerpt, whatever it says. */
  lemma HistoryContextIgnoresLast(role: Role, turns: seq<Turn>, t: Turn)
    ensures HistoryContext(role, turns + [t]) == Join(HistoryLines(role, turns), "\n")
  {
    assert (turns + [t])[..|turns|] == turns;
  }

  lemma RoleNameHasNoNewline(role: Role)
    ensures '\n' !in RoleName(role)
  {
    if role == Prosecutor {
      assert RoleName(role) == ['검', '사'];
    } else {
      assert RoleName(role) == ['피', '고', '인'];
    }
  }

  /** With newline-free turn texts, the excerpt of `n >= 2` turns has exactly `n - 1`
      lines; line `i` is turn `i` behind its speaker's label. */
  lemma HistoryContextLines(role: Role, turns: seq<Turn>)
    requires |turns| >= 2
    requires forall i :: 0 <= i < |turns| ==> '\n' !in turns[i].text
    ensures var lines := Split(HistoryContext(role, turns));
      && |lines| == |turns| - 1
      && forall i :: 0 <= i < |lines| ==>
           lines[i] == SpeakerLabel(role, turns[i].speaker) + ": " + turns[i].text
  {
    var prior := AllButLast(turns);
    var lines := HistoryLines(role, prior);
    RoleNameHasNoNewline(role);
    assert '\n' !in UserLabel;
    forall i | 0 <= i < |lines| ensures '\n' !in lines[i] && lines[i] == HistoryLine(role, turns[i]) {
      HistoryLinesAt(role, prior, i);
      assert prior[i] == turns[i];
      var tag := SpeakerLabel(role, turns[i].speaker);
      assert '\n' !in tag;
      assert forall k :: 0 <= k < |lines[i]| ==> lines[i][k] != '\n' by {
        forall k | 0 <= k < |lines[i]| ensures lines[i][k] != '\n' {
          if k < |tag| {
            assert lines[i][k] == tag[k];
          } else if k < |tag| + 2 {
            assert lines[i][k] == ": "[k - |tag|];
          } else {
            assert lines[i][k] == turns[i].text[k - |tag| - 2];
          }
        }
      }
    }
    SplitJoin(lines);
  }

  /** A question asked while an earlier one still waits in the queue: when the earlier
      task runs, its own question is in the excerpt as an ordinary prior line, and the
      later question is the one left out. */
  lemma QueuedQuestionInContext(role: Role, turns: seq<Turn>, earlier: string, later: string)
    ensures HistoryContext(role, turns + [Turn(User, earlier), Turn(User, later)])
         == Join(HistoryLines(role, turns + [Turn(User, earlier)]), "\n")
  {
    HistoryContextIgnoresLast(role, turns + [Turn(User, earlier)], Turn(User, later));
    assert turns + [Turn(User, earlier), Turn(User, later)]
        == (turns + [Turn(User, earlier)]) + [Turn(User, later)];
  }

  // ---------------------------------------------------------------------------
  // What the producers push
  // ---------------------------------------------------------------------------

  /** The tasks `renderChatHistory` pushes: an opening statement for each room whose
      history is still empty, prosecutor first. */
  function InitialTasks(prosecutor: seq<Turn>, defendant: seq<Turn>): (r: seq<Task>)
    ensures InitialStatement(Prosecutor) in r <==> prosecutor == []
    ensures InitialStatement(Defendant) in r <==> defendant == []
    ensures forall i :: 0 <= i < |r| ==> r[i].InitialStatement?
    ensures |r| == (if prosecutor == [] then 1 else 0) + (if defendant == [] then 1 else 0)
    ensures |r| == 2 ==> r[0] == InitialStatement(Prosecutor)
  {
    (if prosecutor == [] then [InitialStatement(Prosecutor)] else [])
    + (if defendant == [] then [InitialStatement(Defendant)] else [])
  }

  /** How one run ended, as reported in the room. */
  datatype RunResult =
    | NoApiKey
    | Failed(message: string)
    | Answered(text: string, displays: seq<string>)

  /** The message `appendChatMessage` adds for a run that produced no answer. */
  function Notice(r: RunResult): (m: Option<string>)
    ensures m.None? <==> r.Answered?
  {
    match r
    case NoApiKey => Some(MissingKeyMessage)
    case Failed(msg) => Some(ErrorPrefix + msg)
    case Answered(_, _) => None
  }

  class ChatSession {
    /** `apiQueue` and `isApiBusy`. */
    const queue: ApiQueue
    /** `API_KEY`. */
    const apiKey: string
    /** The id of `state.selectedCase`, if one is chosen. */
    var selectedCase: Option<nat>
    /** `state.chatHistory.prosecutor`. */
    var prosecutorTurns: seq<Turn>
    /** `state.chatHistory.defendant`. */
    var defendantTurns: seq<Turn>

    ghost predicate Valid()
      reads this, queue
    {
      queue.Valid()
    }

    function Turns(r: Role): seq<Turn>
      reads this
    {
      if r == Prosecutor then prosecutorTurns else defendantTurns
    }

    constructor (key: string)
      ensures Valid() && fresh(queue)
      ensures apiKey == key && selectedCase == None
      ensures prosecutorTurns == [] && defendantTurns == []
      ensures queue.pending == [] && !queue.busy
    {
      queue := new ApiQueue();
      apiKey := key;
      selectedCase := None;
      prosecutorTurns := [];
      defendantTurns := [];
    }

    /** `selectCase`: an unknown id changes nothing; a known one becomes the selected case
        and both histories start empty. */
    method SelectCase(id: nat, caseIds: seq<nat>)
      modifies this
      ensures id !in caseIds ==>
        selectedCase == old(selectedCase)
        && prosecutorTurns == old(prosecutorTurns) && defendantTurns == old(defendantTurns)
      ensures id in caseIds ==>
        selectedCase == Some(id) && prosecutorTurns == [] && defendantTurns == []
    {
      if id !in caseIds {
        return;
      }
      selectedCase := Some(id);
      prosecutorTurns := [];
      defendantTurns := [];
    }

    /** `renderChatHistory`: without a selected case it stops before touching the queue;
        otherwise it pushes an opening statement for each empty room and drains. */
    method RenderChatHistory() returns (task: Option<Task>)
      requires Valid()
      modifies queue
      ensures Valid()
      ensures old(selectedCase).None? ==>
        task == None && queue.pending == old(queue.pending) && queue.busy == old(queue.busy)
        && queue.enqueued == old(queue.enqueued)
      ensures old(selectedCase).Some? ==>
        var all := old(queue.pending) + InitialTasks(prosecutorTurns, defendantTurns);
        && queue.enqueued == old(queue.enqueued) + InitialTasks(prosecutorTurns, defendantTurns)
        && (old(queue.busy) || all == [] ==>
              task == None && queue.pending == all && queue.busy == old(queue.busy))
        && (!old(queue.busy) && all != [] ==>
              task == Some(all[0]) && queue.pending == all[1..] && queue.busy)
    {
      if selectedCase.None? {
        return None;
      }
      if |prosecutorTurns| == 0 {
        queue.Enqueue(InitialStatement(Prosecutor));
      }
      if |defendantTurns| == 0 {
        queue.Enqueue(InitialStatement(Defendant));
      }
      task := queue.Drain();
    }

    /** `handleChatSubmit`: refused while a task runs, ignored when the trimmed input is
        empty; otherwise exactly one user turn is recorded in the room and exactly one
        reply task is pushed, and the queue is drained. */
    method HandleChatSubmit(role: Role, input: string) returns (task: Option<Task>)
      requires Valid()
      modifies this, queue
      ensures Valid()
      ensures selectedCase == old(selectedCase)
      ensures old(queue.busy) || Trim(input) == [] ==>
        && task == None
        && prosecutorTurns == old(prosecutorTurns) && defendantTurns == old(defendantTurns)
        && queue.pending == old(queue.pending) && queue.busy == old(queue.busy)
        && queue.enqueued == old(queue.enqueued) && queue.started == old(queue.started)
      ensures !old(queue.busy) && Trim(input) != [] ==>
        var t := AiResponse(role, Trim(input));
        var all := old(queue.pending) + [t];
        && Turns(role) == old(Turns(role)) + [Turn(User, Trim(input))]
        && Turns(Other(role)) == old(Turns(Other(role)))
        && queue.enqueued == old(queue.enqueued) + [t]
        && task == Some(all[0]) && queue.pending == all[1..] && queue.busy
    {
      if queue.busy {
        return None;
      }
      var text := Trim(input);
      if |text| == 0 {
        return None;
      }
      if role == Prosecutor {
        prosecutorTurns := prosecutorTurns + [Turn(User, text)];
      } else {
        defendantTurns := defendantTurns + [Turn(User, text)];
      }
      queue.Enqueue(AiResponse(role, text));
      task := queue.Drain();
    }

    /** The body of a dialogue task. Without a key it only shows the missing-key message.
        Otherwise a reply first takes the history excerpt of its room; then the request
        loop runs on the injected `responses`; an accepted response is decoded from the
        injected `chunks` and its raw text is recorded as one AI turn; any other outcome
        leaves the histories as they were. */
    method RunTask(task: Task, responses: seq<Attempt>, chunks: seq<string>, parse: FrameParser)
      returns (result: RunResult, context: Option<string>, waits: seq<nat>)
      requires MaxRetries < |responses|
      modifies this
      ensures selectedCase == old(selectedCase)
      ensures context == if apiKey != "" && task.AiResponse?
        then Some(HistoryContext(task.role, old(Turns(task.role)))) else None
      ensures Turns(Other(task.role)) == old(Turns(Other(task.role)))
      ensures apiKey == "" ==>
        result == NoApiKey && waits == [] && Turns(task.role) == old(Turns(task.role))
      ensures apiKey != "" ==>
        var trace := RetrySpec(responses);
        && waits == trace.waits
        && (result.Answered? <==> trace.outcome.Accepted?)
        && (result.Answered? ==>
              && result.text == StreamText(chunks, parse)
              && ShowsSnapshots(task.role, result.displays, StreamPieces(chunks, parse))
              && Turns(task.role) == old(Turns(task.role)) + [Turn(Ai, result.text)])
        && (!result.Answered? ==>
              && result == Failed(FailureMessage(task, trace.outcome).value)
              && Turns(task.role) == old(Turns(task.role)))
    {
      context := None;
      waits := [];
      if |apiKey| == 0 {
        return NoApiKey, context, waits;
      }
      var role := task.role;
      if task.AiResponse? {
        context := Some(HistoryContext(role, Turns(role)));
      }
      var outcome, w, requests := FetchWithRetry(responses);
      waits := w;
      if outcome.Accepted? {
        var text, displays := DecodeStream(role, chunks, parse);
        if role == Prosecutor {
          prosecutorTurns := prosecutorTurns + [Turn(Ai, text)];
        } else {
          defendantTurns := defendantTurns + [Turn(Ai, text)];
        }
        result := Answered(text, displays);
      } else {
        result := Failed(FailureMessage(task, outcome).value);
      }
    }

    /** One pass of `processApiQueue` from the task it shifted off: the task runs, and
        the `finally` block then clears the busy flag and re-arms the queue exactly when
        tasks are still waiting. */
    method Execute(task: Task, responses: seq<Attempt>, chunks: seq<string>, parse: FrameParser)
      returns (result: RunResult, context: Option<string>, waits: seq<nat>, rearm: bool)
      requires Valid() && queue.running == Some(task)
      requires MaxRetries < |responses|
      modifies this, queue
      ensures Valid()
      ensures selectedCase == old(selectedCase)
      ensures !queue.busy && queue.running == None
      ensures queue.pending == old(queue.pending) && queue.enqueued == old(queue.enqueued)
      ensures queue.started == old(queue.started)
      ensures rearm <==> queue.pending != []
      ensures apiKey != "" ==> (result.Answered? <==> RetrySpec(responses).outcome.Accepted?)
      ensures result.Answered? ==>
        Turns(task.role) == old(Turns(task.role)) + [Turn(Ai, result.text)]
      ensures !result.Answered? ==> Turns(task.role) == old(Turns(task.role))
      ensures Turns(Other(task.role)) == old(Turns(Other(task.role)))
    {
      result, context, waits := RunTask(task, responses, chunks, parse);
      rearm := queue.Finish();
    }
  }
}
