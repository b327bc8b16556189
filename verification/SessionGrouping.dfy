/**
 Merging the items of a turn back into the messages of a conversation.
 */
module SessionGrouping {
  import opened Common

  datatype ToolCall = ToolCall(callId: string, name: string, arguments: string)

  /** `OtherItem` is any kind of item the grouping ignores. */
  datatype Item =
    | SystemMessage(text: string)
    | UserMessage(text: string, images: seq<string>, attachments: seq<string>)
    | AssistantMessage(text: string)
    | FunctionCall(call: ToolCall)
    | Reasoning(text: string)
    | FunctionCallOutput(callId: string, text: string)
    | OtherItem

  /** An item with its time and, if it came from an interrupted turn, the reason. */
  datatype View = View(item: Item, timestamp: nat, interrupted: Option<string>)

  type Run = seq<View>

  datatype Role = SystemRole | UserRole | AssistantRole | ToolRole

  datatype Message = Message(
    role: Role,
    content: Option<string>,
    images: seq<string>,
    attachments: seq<string>,
    toolCalls: seq<ToolCall>,
    reasoning: Option<string>,
    toolCallId: Option<string>,
    timestamp: nat,
    interrupted: Option<string>)

  // ---------------------------------------------------------------------------------------------
  // Runs
  // ---------------------------------------------------------------------------------------------

  /** Items that can share a message. */
  predicate IsAssistant(item: Item) {
    item.AssistantMessage? || item.FunctionCall? || item.Reasoning?
  }

  /** What `f` finds in each item, in order. */
  function Pick<X>(run: Run, f: View -> seq<X>): seq<X> {
    if run == [] then [] else Pick(run[..|run| - 1], f) + f(run[|run| - 1])
  }

  function CallIn(): View -> seq<ToolCall> {
    (v: View) => if v.item.FunctionCall? then [v.item.call] else []
  }

  /** The assistant's text. */
  function TextIn(): View -> seq<string> {
    (v: View) => if v.item.AssistantMessage? then [v.item.text] else []
  }

  function ReasoningIn(): View -> string {
    (v: View) => if v.item.Reasoning? then v.item.text else ""
  }

  /** A tool's output with the call it answers. */
  function OutputIn(): View -> seq<(string, string)> {
    (v: View) => if v.item.FunctionCallOutput? then [(v.item.callId, v.item.text)] else []
  }

  /** What a user wrote, with the pictures and the documents that came with it. */
  function UserIn(): View -> seq<(string, seq<string>, seq<string>)> {
    (v: View) => if v.item.UserMessage? then [(v.item.text, v.item.images, v.item.attachments)] else []
  }

  function SystemIn(): View -> seq<string> {
    (v: View) => if v.item.SystemMessage? then [v.item.text] else []
  }

  function Texts(run: Run): seq<string> {
    Pick(run, TextIn())
  }

  predicate HasReasoning(run: Run) {
    exists k :: 0 <= k < |run| && run[k].item.Reasoning?
  }

  lemma PickAppend<X>(run: Run, v: View, f: View -> seq<X>)
    ensures Pick(run + [v], f) == Pick(run, f) + f(v)
  {
    assert (run + [v])[..|run|] == run;
  }

  lemma PickOne<X>(v: View, f: View -> seq<X>)
    ensures Pick([v], f) == f(v)
  {
    assert [v][..0] == [];
  }

  lemma PickOfNothing<X>(f: View -> seq<X>)
    ensures Pick([], f) == []
  {
  }

  lemma {:induction false} PickConcat<X>(a: Run, b: Run, f: View -> seq<X>)
    ensures Pick(a + b, f) == Pick(a, f) + Pick(b, f)
  {
    hide Pick;
    PickOfNothing(f);
    if b == [] {
      assert a + b == a;
    } else {
      var front, last := b[..|b| - 1], b[|b| - 1];
      PickConcat(a, front, f);
      assert b == front + [last] && a + b == (a + front) + [last];
      PickAppend(a + front, last, f);
      PickAppend(front, last, f);
    }
  }

  lemma {:induction false} PickNothing<X>(run: Run, f: View -> seq<X>)
    requires forall k | 0 <= k < |run| :: f(run[k]) == []
    ensures Pick(run, f) == []
  {
    if run != [] {
      PickNothing(run[..|run| - 1], f);
    }
  }

  /** The interruption mark of the assistant's text. */
  function Mark(run: Run): Option<string> {
    if run == [] then None
    else if run[|run| - 1].item.AssistantMessage? then run[|run| - 1].interrupted
    else Mark(run[..|run| - 1])
  }

  /** One item that stands alone, or assistant items with at most one text. */
  predicate IsRun(run: Run) {
    && run != []
    && (if IsAssistant(run[0].item)
        then (forall k | 0 <= k < |run| :: IsAssistant(run[k].item)) && |Texts(run)| <= 1
        else |run| == 1 && !run[0].item.OtherItem?)
  }

  /** `v` goes into the message of `run`. */
  predicate Joins(run: Run, v: View)
    requires run != []
  {
    IsAssistant(run[0].item) && IsAssistant(v.item) && (v.item.AssistantMessage? ==> Texts(run) == [])
  }

  function AddItem(runs: seq<Run>, v: View): (r: seq<Run>)
    requires forall k | 0 <= k < |runs| :: runs[k] != []
    ensures forall k | 0 <= k < |r| :: r[k] != []
  {
    if v.item.OtherItem? then runs
    else if runs != [] && Joins(runs[|runs| - 1], v) then runs[..|runs| - 1] + [runs[|runs| - 1] + [v]]
    else runs + [[v]]
  }

  function RunsOf(items: seq<View>): (r: seq<Run>)
    ensures forall k | 0 <= k < |r| :: r[k] != []
  {
    if items == [] then [] else AddItem(RunsOf(items[..|items| - 1]), items[|items| - 1])
  }

  function Flatten(runs: seq<Run>): Run {
    if runs == [] then [] else Flatten(runs[..|runs| - 1]) + runs[|runs| - 1]
  }

  function Relevant(items: seq<View>): Run {
    if items == [] then []
    else Relevant(items[..|items| - 1]) + if items[|items| - 1].item.OtherItem? then [] else [items[|items| - 1]]
  }

  /** Two assistant messages follow each other only where the first has its text and the next starts with one. */
  predicate CutOk(a: Run, b: Run) {
    a != [] && b != [] && IsAssistant(a[0].item) && IsAssistant(b[0].item) ==>
        Texts(a) != [] && b[0].item.AssistantMessage?
  }

  ghost predicate CutsOk(runs: seq<Run>) {
    forall i, j | 0 <= i && j == i + 1 && j < |runs| :: CutOk(runs[i], runs[j])
  }

  ghost predicate AllRuns(runs: seq<Run>) {
    forall k | 0 <= k < |runs| :: IsRun(runs[k])
  }

  lemma FlattenAppend(runs: seq<Run>, run: Run)
    ensures Flatten(runs + [run]) == Flatten(runs) + run
  {
    assert (runs + [run])[..|runs|] == runs;
  }

  lemma JoinedIsRun(run: Run, v: View)
    requires IsRun(run) && Joins(run, v)
    ensures IsRun(run + [v])
  {
    PickAppend(run, v, TextIn());
  }

  lemma AloneIsRun(v: View)
    requires !v.item.OtherItem?
    ensures IsRun([v])
  {
    PickOne(v, TextIn());
  }

  lemma JoinKeepsCuts(runs: seq<Run>, v: View)
    requires CutsOk(runs) && runs != [] && runs[|runs| - 1] != [] && Joins(runs[|runs| - 1], v)
    ensures CutsOk(runs[..|runs| - 1] + [runs[|runs| - 1] + [v]])
  {
    hide IsAssistant, IsRun;
    var n := |runs| - 1;
    var longer := runs[..n] + [runs[n] + [v]];
    forall i, j | 0 <= i && j == i + 1 && j < |longer| ensures CutOk(longer[i], longer[j]) {
      assert CutOk(runs[i], runs[j]);
    }
  }

  lemma StartKeepsCuts(runs: seq<Run>, v: View)
    requires CutsOk(runs) && AllRuns(runs) && (runs != [] ==> runs[|runs| - 1] != [] && !Joins(runs[|runs| - 1], v))
    ensures CutsOk(runs + [[v]])
  {
    hide Texts, IsRun;
    var longer := runs + [[v]];
    forall i, j | 0 <= i && j == i + 1 && j < |longer| ensures CutOk(longer[i], longer[j]) {
      assert j < |runs| ==> CutOk(runs[i], runs[j]);
    }
  }

  lemma AddItemKeeps(runs: seq<Run>, v: View)
    requires AllRuns(runs) && CutsOk(runs) && forall k | 0 <= k < |runs| :: runs[k] != []
    ensures AllRuns(AddItem(runs, v)) && CutsOk(AddItem(runs, v))
    ensures Flatten(AddItem(runs, v)) == Flatten(runs) + if v.item.OtherItem? then [] else [v]
  {
    hide CutsOk, IsRun, Joins, Flatten;
    if v.item.OtherItem? {
    } else if runs != [] && Joins(runs[|runs| - 1], v) {
      var n := |runs| - 1;
      assert runs == runs[..n] + [runs[n]];
      FlattenAppend(runs[..n], runs[n]);
      FlattenAppend(runs[..n], runs[n] + [v]);
      JoinedIsRun(runs[n], v);
      JoinKeepsCuts(runs, v);
    } else {
      FlattenAppend(runs, [v]);
      AloneIsRun(v);
      StartKeepsCuts(runs, v);
    }
  }

  /** The runs are the items, cut into messages where they have to be. */
  lemma {:induction false} RunsPartitionItems(items: seq<View>)
    ensures Flatten(RunsOf(items)) == Relevant(items)
    ensures AllRuns(RunsOf(items)) && CutsOk(RunsOf(items))
  {
    hide CutsOk, AllRuns, AddItem, Flatten;
    NoCuts();
    if items != [] {
      RunsPartitionItems(items[..|items| - 1]);
      AddItemKeeps(RunsOf(items[..|items| - 1]), items[|items| - 1]);
    }
  }

  lemma NoCuts()
    ensures CutsOk([]) && AllRuns([]) && Flatten([]) == []
  {
  }

  // ---------------------------------------------------------------------------------------------
  // Messages
  // ---------------------------------------------------------------------------------------------

  function LastOf(texts: seq<string>): Option<string> {
    if texts == [] then None else Some(texts[|texts| - 1])
  }

  function ReasoningOf(run: Run): Option<string> {
    if HasReasoning(run) then Some(Pick(run, ReasoningIn())) else None
  }

  /** The message a run is shown as. */
  function MessageOf(run: Run): Message
    requires run != []
  {
    var v := run[0];
    match v.item
    case SystemMessage(text) => Message(SystemRole, Some(text), [], [], [], None, None, v.timestamp, None)
    case UserMessage(text, images, attachments) =>
      Message(UserRole, Some(text), images, attachments, [], None, None, v.timestamp, None)
    case FunctionCallOutput(callId, text) =>
      Message(ToolRole, Some(text), [], [], [], None, Some(callId), v.timestamp, v.interrupted)
    case _ =>
      var content, calls := LastOf(Texts(run)), Pick(run, CallIn());
      Message(AssistantRole, content, [], [], calls, ReasoningOf(run), None, v.timestamp, Mark(run))
  }

  function MessagesOf(runs: seq<Run>): (r: seq<Message>)
    requires forall k | 0 <= k < |runs| :: runs[k] != []
    ensures |r| == |runs| && forall k | 0 <= k < |r| :: r[k] == MessageOf(runs[k])
  {
    seq(|runs|, k requires 0 <= k < |runs| => MessageOf(runs[k]))
  }

  function Gather<X>(messages: seq<Message>, g: Message -> seq<X>): seq<X> {
    if messages == [] then [] else Gather(messages[..|messages| - 1], g) + g(messages[|messages| - 1])
  }

  function CallsOf(): Message -> seq<ToolCall> {
    (m: Message) => m.toolCalls
  }

  function TextOf(): Message -> seq<string> {
    (m: Message) => if m.role.AssistantRole? && m.content.Some? then [m.content.value] else []
  }

  function ThoughtOf(): Message -> string {
    (m: Message) => match m.reasoning case None => "" case Some(s) => s
  }

  function OutputOf(): Message -> seq<(string, string)> {
    (m: Message) =>
      if m.role.ToolRole? && m.toolCallId.Some? && m.content.Some? then [(m.toolCallId.value, m.content.value)] else []
  }

  function UserOf(): Message -> seq<(string, seq<string>, seq<string>)> {
    (m: Message) =>
      if m.role.UserRole? && m.content.Some? then [(m.content.value, m.images, m.attachments)] else []
  }

  function SystemOf(): Message -> seq<string> {
    (m: Message) => if m.role.SystemRole? && m.content.Some? then [m.content.value] else []
  }

  /** A message says what its run says: `g` finds in it what `f` finds in the items. */
  ghost predicate Carries<X>(f: View -> seq<X>, g: Message -> seq<X>) {
    forall run: Run | IsRun(run) :: g(MessageOf(run)) == Pick(run, f)
  }

  ghost predicate CarriesAll(run: Run, m: Message) {
    && CallsOf()(m) == Pick(run, CallIn())
    && TextOf()(m) == Pick(run, TextIn())
    && ThoughtOf()(m) == Pick(run, ReasoningIn())
    && OutputOf()(m) == Pick(run, OutputIn())
    && UserOf()(m) == Pick(run, UserIn())
    && SystemOf()(m) == Pick(run, SystemIn())
  }

  lemma EverythingIsCarried()
    ensures Carries(CallIn(), CallsOf()) && Carries(TextIn(), TextOf()) && Carries(ReasoningIn(), ThoughtOf())
    ensures Carries(OutputIn(), OutputOf()) && Carries(UserIn(), UserOf()) && Carries(SystemIn(), SystemOf())
  {
    forall run: Run | IsRun(run) ensures CarriesAll(run, MessageOf(run)) {
      hide Pick, MessageOf;
      if IsAssistant(run[0].item) {
        AssistantRunIsCarried(run);
      } else {
        LoneItemIsCarried(run[0]);
        assert run == [run[0]];
      }
    }
  }

  lemma LoneItemIsCarried(v: View)
    requires !IsAssistant(v.item) && !v.item.OtherItem?
    ensures CarriesAll([v], MessageOf([v]))
  {
    PickOne(v, CallIn());
    PickOne(v, TextIn());
    PickOne(v, ReasoningIn());
    PickOne(v, OutputIn());
    PickOne(v, UserIn());
    PickOne(v, SystemIn());
  }

  lemma AssistantRunIsCarried(run: Run)
    requires IsRun(run) && IsAssistant(run[0].item)
    ensures CarriesAll(run, MessageOf(run))
  {
    hide Pick;
    PickNothing(run, OutputIn());
    PickNothing(run, UserIn());
    PickNothing(run, SystemIn());
    assert |Texts(run)| == 1 ==> Texts(run) == [Texts(run)[0]];
    if !HasReasoning(run) {
      PickNothing(run, ReasoningIn());
    }
  }

  /** Items of other kinds count for nothing. */
  lemma {:induction false} PickRelevant<X>(items: seq<View>, f: View -> seq<X>)
    requires forall v: View :: v.item.OtherItem? ==> f(v) == []
    ensures Pick(Relevant(items), f) == Pick(items, f)
  {
    if items != [] {
      var front, last := items[..|items| - 1], items[|items| - 1];
      PickRelevant(front, f);
      if !last.item.OtherItem? {
        PickAppend(Relevant(front), last, f);
      } else {
        assert Relevant(front) + [] == Relevant(front) && Pick(front, f) + [] == Pick(front, f);
      }
    }
  }

  /** The rest of a message: the time of its first item, an interruption where the text or the output carries one,
      and nothing that its kind does not have. */
  lemma MessageFields(run: Run)
    requires IsRun(run)
    ensures var m := MessageOf(run); m.timestamp == run[0].timestamp
    ensures var m, first := MessageOf(run), run[0].item;
            && (m.role == SystemRole <==> first.SystemMessage?) && (m.role == UserRole <==> first.UserMessage?)
            && (m.role == ToolRole <==> first.FunctionCallOutput?)
            && (m.role != UserRole ==> m.images == [] && m.attachments == [])
            && (m.role != AssistantRole ==> m.toolCalls == [] && m.reasoning == None && m.content.Some?)
            && (m.toolCallId.Some? <==> m.role == ToolRole)
            && (m.role == SystemRole || m.role == UserRole ==> m.interrupted == None)
            && (m.role == ToolRole ==> m.interrupted == run[0].interrupted)
    ensures var m := MessageOf(run);
            m.role == AssistantRole ==>
              && (m.reasoning.Some? <==> exists k :: 0 <= k < |run| && run[k].item.Reasoning?)
              && (m.content == None ==> m.interrupted == None)
              && (forall k | 0 <= k < |run| && run[k].item.AssistantMessage? ::
                    m.content == Some(run[k].item.text) && m.interrupted == run[k].interrupted)
  {
    if IsAssistant(run[0].item) {
      hide Pick, Mark;
      if Texts(run) == [] {
        NoTextNoMark(run);
      }
      forall k | 0 <= k < |run| && run[k].item.AssistantMessage?
        ensures LastOf(Texts(run)) == Some(run[k].item.text) && Mark(run) == run[k].interrupted
      {
        OnlyText(run, k);
      }
    }
  }

  /** Where there is at most one text, it is the text, and its mark the mark. */
  lemma {:induction false} OnlyText(run: Run, k: nat)
    requires k < |run| && run[k].item.AssistantMessage? && |Texts(run)| <= 1
    ensures Texts(run) == [run[k].item.text] && Mark(run) == run[k].interrupted
  {
    var n := |run| - 1;
    if k < n {
      OnlyText(run[..n], k);
    }
  }

  lemma {:induction false} CarriedThrough<X>(runs: seq<Run>, f: View -> seq<X>, g: Message -> seq<X>)
    requires Carries(f, g) && AllRuns(runs) && forall k | 0 <= k < |runs| :: runs[k] != []
    ensures Gather(MessagesOf(runs), g) == Pick(Flatten(runs), f)
  {
    hide IsRun, MessageOf;
    if runs != [] {
      var front, last := runs[..|runs| - 1], runs[|runs| - 1];
      CarriedThrough(front, f, g);
      assert MessagesOf(runs)[..|front|] == MessagesOf(front);
      PickConcat(Flatten(front), last, f);
      assert IsRun(last);
    }
  }

  /** Nothing is lost and nothing changes places: what users wrote and sent along, system texts, calls, assistant
      texts, outputs and reasoning of the messages are those of the items. */
  lemma GroupingConserves(items: seq<View>)
    ensures Gather(MessagesOf(RunsOf(items)), CallsOf()) == Pick(items, CallIn())
    ensures Gather(MessagesOf(RunsOf(items)), TextOf()) == Pick(items, TextIn())
    ensures Gather(MessagesOf(RunsOf(items)), ThoughtOf()) == Pick(items, ReasoningIn())
    ensures Gather(MessagesOf(RunsOf(items)), OutputOf()) == Pick(items, OutputIn())
    ensures Gather(MessagesOf(RunsOf(items)), UserOf()) == Pick(items, UserIn())
    ensures Gather(MessagesOf(RunsOf(items)), SystemOf()) == Pick(items, SystemIn())
  {
    hide Carries, MessagesOf, AllRuns, Gather, Pick, Relevant;
    EverythingIsCarried();
    RunsPartitionItems(items);
    ProjectionKept(items, CallIn(), CallsOf());
    ProjectionKept(items, TextIn(), TextOf());
    ProjectionKept(items, ReasoningIn(), ThoughtOf());
    ProjectionKept(items, OutputIn(), OutputOf());
    ProjectionKept(items, UserIn(), UserOf());
    ProjectionKept(items, SystemIn(), SystemOf());
  }

  lemma ProjectionKept<X>(items: seq<View>, f: View -> seq<X>, g: Message -> seq<X>)
    requires Carries(f, g) && forall v: View :: v.item.OtherItem? ==> f(v) == []
    ensures Gather(MessagesOf(RunsOf(items)), g) == Pick(items, f)
  {
    hide Carries, MessagesOf, AllRuns, Gather, Pick, Relevant;
    RunsPartitionItems(items);
    CarriedThrough(RunsOf(items), f, g);
    PickRelevant(items, f);
  }

  // ---------------------------------------------------------------------------------------------
  // The loop
  // ---------------------------------------------------------------------------------------------

  datatype Builder = Builder(
    content: Option<string>,
    toolCalls: seq<ToolCall>,
    reasoning: Option<string>,
    timestamp: nat,
    interrupted: Option<string>)

  function IntoMessage(b: Builder): Option<Message> {
    if b.content.None? && b.toolCalls == [] && b.reasoning.None? then None
    else Some(Message(AssistantRole, b.content, [], [], b.toolCalls, b.reasoning, None, b.timestamp, b.interrupted))
  }

  function BuilderOf(run: Run): Builder
    requires run != []
  {
    Builder(LastOf(Texts(run)), Pick(run, CallIn()), ReasoningOf(run), run[0].timestamp, Mark(run))
  }

  /** No message under construction is ever dropped for being empty. */
  lemma BuilderIsNeverEmpty(run: Run)
    requires IsRun(run) && IsAssistant(run[0].item)
    ensures IntoMessage(BuilderOf(run)) == Some(MessageOf(run))
  {
    var n := |run| - 1;
    assert run == run[..n] + [run[n]];
    PickAppend(run[..n], run[n], TextIn());
    PickAppend(run[..n], run[n], CallIn());
    assert run[n].item.Reasoning? ==> HasReasoning(run);
  }

  lemma ReasoningGrows(run: Run, v: View)
    ensures ReasoningOf(run + [v]) ==
            if v.item.Reasoning? then
              Some(match ReasoningOf(run) case None => v.item.text case Some(s) => s + v.item.text)
            else ReasoningOf(run)
  {
    PickAppend(run, v, ReasoningIn());
    HasReasoningGrows(run, v);
    hide Pick, HasReasoning;
    var before := Pick(run, ReasoningIn());
    assert before + "" == before;
    if !HasReasoning(run) {
      NoReasoning(run);
      assert before + ReasoningIn()(v) == ReasoningIn()(v);
    }
  }

  lemma NoReasoning(run: Run)
    requires !HasReasoning(run)
    ensures Pick(run, ReasoningIn()) == ""
  {
    PickNothing(run, ReasoningIn());
  }

  lemma HasReasoningGrows(run: Run, v: View)
    ensures HasReasoning(run + [v]) <==> HasReasoning(run) || v.item.Reasoning?
  {
    var longer := run + [v];
    if HasReasoning(run) {
      var k :| 0 <= k < |run| && run[k].item.Reasoning?;
      assert longer[k].item.Reasoning?;
    }
    assert v.item.Reasoning? ==> longer[|run|].item.Reasoning?;
  }

  lemma MarkGrows(run: Run, v: View)
    ensures Mark(run + [v]) == if v.item.AssistantMessage? then v.interrupted else Mark(run)
  {
    assert (run + [v])[..|run|] == run;
  }

  lemma {:induction false} NoTextNoMark(run: Run)
    requires Texts(run) == []
    ensures Mark(run) == None
  {
    if run != [] {
      var n := |run| - 1;
      assert run == run[..n] + [run[n]];
      PickAppend(run[..n], run[n], TextIn());
      NoTextNoMark(run[..n]);
    }
  }

  /** What one more item does to the builder. */
  lemma BuilderGrows(run: Run, v: View)
    requires run != [] && Joins(run, v)
    ensures BuilderOf(run + [v]) == AddToBuilder(BuilderOf(run), v)
  {
    hide Pick, Mark, ReasoningOf;
    PickAppend(run, v, TextIn());
    PickAppend(run, v, CallIn());
    ReasoningGrows(run, v);
    MarkGrows(run, v);
    if v.item.AssistantMessage? {
      NoTextNoMark(run);
    }
  }

  lemma BuilderStarts(v: View)
    requires IsAssistant(v.item)
    ensures BuilderOf([v]) == AddToBuilder(Builder(None, [], None, v.timestamp, None), v)
  {
    hide Pick, Mark, ReasoningOf;
    assert [] + [v] == [v];
    NothingReasoned();
    ReasoningGrows([], v);
    MarkGrows([], v);
    PickOne(v, TextIn());
    PickOne(v, CallIn());
  }

  lemma NothingReasoned()
    ensures ReasoningOf([]) == None && Mark([]) == None
  {
  }

  /** An assistant item goes into a message under construction. */
  function AddToBuilder(b: Builder, v: View): Builder {
    match v.item
    case AssistantMessage(text) =>
      b.(content := Some(text), interrupted := if v.interrupted.Some? then v.interrupted else b.interrupted)
    case FunctionCall(call) => b.(toolCalls := b.toolCalls + [call])
    case Reasoning(text) => b.(reasoning := Some(match b.reasoning case None => text case Some(s) => s + text))
    case _ => b
  }

  /** The last run can still grow iff it is an assistant's. */
  predicate IsOpen(runs: seq<Run>) {
    runs != [] && runs[|runs| - 1] != [] && IsAssistant(runs[|runs| - 1][0].item)
  }

  /** The loop's variables after the items that made `runs`. */
  ghost predicate Building(messages: seq<Message>, current: Option<Builder>, runs: seq<Run>) {
    && (forall k | 0 <= k < |runs| :: runs[k] != [])
    && AllRuns(runs)
    && current == (if IsOpen(runs) then Some(BuilderOf(runs[|runs| - 1])) else None)
    && messages == MessagesOf(if IsOpen(runs) then runs[..|runs| - 1] else runs)
  }

  /** Flushing closes the last run. */
  method Flush(messages: seq<Message>, current: Option<Builder>, ghost runs: seq<Run>) returns (flushed: seq<Message>)
    requires Building(messages, current, runs)
    ensures flushed == MessagesOf(runs)
  {
    hide IsRun, MessageOf, BuilderOf, IntoMessage;
    flushed := messages;
    if current.Some? {
      BuilderIsNeverEmpty(runs[|runs| - 1]);
      var message := IntoMessage(current.value);
      if message.Some? {
        flushed := messages + [message.value];
      }
      assert flushed == MessagesOf(runs);
    }
  }

  /** The items so far and one that does not join the last run. */
  lemma LoneItemStarts(runs: seq<Run>, v: View)
    requires (forall k | 0 <= k < |runs| :: runs[k] != []) && AllRuns(runs) && !v.item.OtherItem? &&
            !IsAssistant(v.item)
    ensures AddItem(runs, v) == runs + [[v]]
    ensures Building(MessagesOf(runs) + [MessageOf([v])], None, AddItem(runs, v))
  {
    hide IsRun;
    AloneIsRun(v);
    assert MessagesOf(runs + [[v]]) == MessagesOf(runs) + [MessageOf([v])];
  }

  lemma AssistantStarts(runs: seq<Run>, v: View)
    requires (forall k | 0 <= k < |runs| :: runs[k] != []) && AllRuns(runs) && IsAssistant(v.item)
    requires IsOpen(runs) ==> !Joins(runs[|runs| - 1], v)
    ensures Building(MessagesOf(runs), Some(AddToBuilder(Builder(None, [], None, v.timestamp, None), v)),
            AddItem(runs, v))
  {
    hide IsRun, BuilderOf, AddToBuilder, MessageOf, Joins;
    var longer := runs + [[v]];
    AloneIsRun(v);
    BuilderStarts(v);
    StartsRun(runs, v);
    assert longer[..|runs|] == runs && longer[|runs|] == [v];
    assert IsOpen(longer);
  }

  lemma StartsRun(runs: seq<Run>, v: View)
    requires (forall k | 0 <= k < |runs| :: runs[k] != []) && IsAssistant(v.item)
    requires IsOpen(runs) ==> !Joins(runs[|runs| - 1], v)
    ensures AddItem(runs, v) == runs + [[v]]
  {
    hide Texts;
  }

  lemma AssistantJoins(messages: seq<Message>, b: Builder, runs: seq<Run>, v: View)
    requires Building(messages, Some(b), runs) && IsAssistant(v.item) && (v.item.AssistantMessage? ==> b.content.None?)
    ensures Building(messages, Some(AddToBuilder(b, v)), AddItem(runs, v))
  {
    hide IsRun, MessageOf, BuilderOf, AddToBuilder, Texts;
    var n := |runs| - 1;
    assert Joins(runs[n], v) by { StillNoText(runs[n]); }
    JoinedIsRun(runs[n], v);
    BuilderGrows(runs[n], v);
    var longer := runs[..n] + [runs[n] + [v]];
    assert AddItem(runs, v) == longer && longer[..n] == runs[..n];
    assert IsOpen(longer) && longer[n] == runs[n] + [v];
  }

  lemma StillNoText(run: Run)
    requires run != []
    ensures BuilderOf(run).content.None? <==> Texts(run) == []
  {
  }

  /** The messages of a turn. */
  method GroupInputItems(items: seq<View>) returns (messages: seq<Message>)
    ensures messages == MessagesOf(RunsOf(items))
  {
    hide Building, RunsOf, AddItem, MessagesOf, AddToBuilder, IsOpen, Joins;
    messages := [];
    var current: Option<Builder> := None;
    ghost var runs: seq<Run> := [];
    NothingBuilt();
    assert items[..0] == [];
    for k := 0 to |items|
      invariant runs == RunsOf(items[..k]) && Building(messages, current, runs)
    {
      var v := items[k];
      NextRuns(items, k);
      messages, current := TakeItem(messages, current, runs, v);
      runs := AddItem(runs, v);
    }
    assert items[..|items|] == items;
    messages := Flush(messages, current, runs);
  }

  method TakeItem(messages: seq<Message>, current: Option<Builder>, ghost runs: seq<Run>, v: View)
    returns (messages': seq<Message>, current': Option<Builder>)
    requires Building(messages, current, runs)
    ensures Building(messages', current', AddItem(runs, v))
  {
    hide MessagesOf, AddItem, AllRuns;
    match v.item
    case SystemMessage(text) =>
      LoneItemStarts(runs, v);
      messages' := Flush(messages, current, runs);
      messages' := messages' + [Message(SystemRole, Some(text), [], [], [], None, None, v.timestamp, None)];
      current' := None;
    case UserMessage(text, images, attachments) =>
      LoneItemStarts(runs, v);
      messages' := Flush(messages, current, runs);
      messages' := messages' + [Message(UserRole, Some(text), images, attachments, [], None, None, v.timestamp, None)];
      current' := None;
    case AssistantMessage(text) =>
      if current.Some? && current.value.content.None? {
        AssistantJoins(messages, current.value, runs, v);
        messages' := messages;
        current' := Some(current.value.(content := Some(text)));
        if v.interrupted.Some? {
          current' := Some(current'.value.(interrupted := v.interrupted));
        }
      } else {
        AssistantStarts(runs, v);
        messages' := Flush(messages, current, runs);
        current' := Some(Builder(Some(text), [], None, v.timestamp, v.interrupted));
      }
    case FunctionCall(call) =>
      messages' := messages;
      var b := Builder(None, [], None, v.timestamp, None);
      if current.Some? {
        AssistantJoins(messages, current.value, runs, v);
        b := current.value;
      } else {
        AssistantStarts(runs, v);
      }
      current' := Some(b.(toolCalls := b.toolCalls + [call]));
    case Reasoning(text) =>
      messages' := messages;
      var b := Builder(None, [], None, v.timestamp, None);
      if current.Some? {
        AssistantJoins(messages, current.value, runs, v);
        b := current.value;
      } else {
        AssistantStarts(runs, v);
      }
      current' := Some(b.(reasoning := Some(match b.reasoning case None => text case Some(s) => s + text)));
    case FunctionCallOutput(callId, text) =>
      LoneItemStarts(runs, v);
      messages' := Flush(messages, current, runs);
      messages' := messages' +
          [Message(ToolRole, Some(text), [], [], [], None, Some(callId), v.timestamp, v.interrupted)];
      current' := None;
    case OtherItem =>
      IgnoredItem(runs, v);
      messages', current' := messages, current;
  }

  lemma IgnoredItem(runs: seq<Run>, v: View)
    requires v.item.OtherItem? && forall k | 0 <= k < |runs| :: runs[k] != []
    ensures AddItem(runs, v) == runs
  {
  }

  lemma NothingBuilt()
    ensures Building([], None, []) && RunsOf([]) == []
  {
  }

  lemma NextRuns(items: seq<View>, k: nat)
    requires k < |items|
    ensures RunsOf(items[..k + 1]) == AddItem(RunsOf(items[..k]), items[k])
  {
    hide AddItem;
    assert items[..k + 1][..k] == items[..k];
  }
}
