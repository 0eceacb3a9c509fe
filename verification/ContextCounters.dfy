/**
 * resources/opencode-context-plugin.ts: what each counter of a composition holds, said of the parts of the request
 * themselves, and `composition` as a whole.
 */
module ContextCounters {
  import opened Options
  import opened Splitting
  import opened ContextAccounting

  /** The id of a message is one of these. */
  ghost predicate HasId(message: Js, ids: set<string>) {
    exists id :: id in ids && Prop(message, "id") == Text(id)
  }

  ghost predicate IsSummary(message: Js, sources: Sources) { HasId(message, sources.summaries) }

  ghost predicate IsInstruction(message: Js, sources: Sources) {
    Prop(message, "role") == Text("system") || HasId(message, sources.instructions)
  }

  ghost predicate IsAttachment(part: Js) {
    exists props :: Prop(Prop(part, "metadata"), "attachment") == Object(props)
  }

  predicate HasKind(part: Js, kind: string) { Prop(part, "type") == Text(kind) }

  /** The estimate of a part's own text, if it has one. */
  function TextSize(part: Js): nat {
    match Prop(part, "text")
    case Text(s) => EstimateText(s)
    case _ => 0
  }

  /** The texts among the items of a tool result. */
  function Texts(items: seq<Js>): seq<string> {
    if items == [] then []
    else
      var item := items[|items| - 1];
      Texts(items[..|items| - 1]) + if IsText(item) then [Prop(item, "text").s] else []
  }

  /** The size of a tool result: its text items, a text, any other value, or the envelope of an error. */
  function ResultSize(stringify: Stringify, result: Js): nat {
    match Prop(result, "type")
    case Text(kind) =>
      if kind == "content" then
        match Prop(result, "value") { case List(items) => Total(Texts(items)) case _ => 0 }
      else
        match Prop(result, "value") { case Text(s) => EstimateText(s) case v => EstimateValue(stringify, v) }
    case _ =>
      if result.Object? && Prop(result, "error") != Undefined then
        EstimateValue(stringify, Object([("error", Prop(result, "error")), ("content", Prop(result, "content"))]))
      else 0
  }

  /** The result is that of a read: the part says so, or, if it names no tool, the latest call with its id does. */
  ghost predicate OfRead(part: Js, earlier: seq<Js>) {
    match Prop(part, "name")
    case Text(name) => name == "read" || name == "read_file"
    case _ => exists id :: Prop(part, "id") == Text(id) && LatestIsRead(earlier, id)
  }

  /** What one message part adds to one counter. */
  ghost function Share(b: Bucket, stringify: Stringify, message: Js, part: Js, sources: Sources,
                       earlier: seq<Js>): nat {
    var summary, instruction := IsSummary(message, sources), IsInstruction(message, sources);
    match b
    case System => if HasKind(part, "text") && !summary && instruction then TextSize(part) else 0
    case Tools => 0
    case Memory => if HasKind(part, "compaction") || (HasKind(part, "text") && summary) then TextSize(part) else 0
    case Messages =>
      if HasKind(part, "text") && !summary && !instruction && !IsAttachment(part) then TextSize(part) else 0
    case Reasoning => if HasKind(part, "reasoning") then TextSize(part) else 0
    case ToolCalls =>
      if HasKind(part, "tool-call") then
        EstimateValue(stringify, Object([("name", Prop(part, "name")), ("input", Prop(part, "input"))]))
      else 0
    case Files =>
      if HasKind(part, "text") && !summary && !instruction && IsAttachment(part) then TextSize(part)
      else if HasKind(part, "tool-result") && OfRead(part, earlier) then ResultSize(stringify, Prop(part, "result"))
      else 0
    case ToolResults =>
      if HasKind(part, "tool-result") && !OfRead(part, earlier) then ResultSize(stringify, Prop(part, "result")) else 0
  }

  /** The parts of some slots, in order. */
  function PartsIn(slots: seq<Slot>): seq<Js> {
    if slots == [] then []
    else PartsIn(slots[..|slots| - 1]) + if slots[|slots| - 1].PartSlot? then [slots[|slots| - 1].part] else []
  }

  /** What all message parts add to one counter. */
  ghost function Shares(b: Bucket, stringify: Stringify, slots: seq<Slot>, sources: Sources): nat {
    if slots == [] then 0
    else
      var front, last := slots[..|slots| - 1], slots[|slots| - 1];
      Shares(b, stringify, front, sources)
      + if last.PartSlot? then Share(b, stringify, last.message, last.part, sources, PartsIn(front)) else 0
  }

  function SystemShares(system: seq<Js>): nat {
    if system == [] then 0
    else
      var part := system[|system| - 1];
      SystemShares(system[..|system| - 1]) + if HasKind(part, "text") then TextSize(part) else 0
  }

  function ToolShares(stringify: Stringify, props: seq<(string, Js)>): nat {
    if props == [] then 0
    else
      var (name, tool) := props[|props| - 1];
      ToolShares(stringify, props[..|props| - 1]) + ToolShare(stringify, name, tool)
  }

  function ToolShare(stringify: Stringify, name: string, tool: Js): nat {
    match tool
    case Object(props) =>
      EstimateValue(stringify, Object([("name", Text(name)), ("description", Lookup(props, "description")),
                                       ("input", Lookup(props, "input"))]))
    case _ => 0
  }

  /** What a counter should hold for a whole request. */
  ghost function Due(b: Bucket, stringify: Stringify, system: seq<Js>, tools: Js, messages: seq<Js>,
                     sources: Sources): nat {
    Shares(b, stringify, Slots(messages), sources)
    + (if b == System then SystemShares(system) else 0)
    + (if b == Tools && tools.Object? then ToolShares(stringify, tools.props) else 0)
  }

  lemma {:induction false} ContentSize(items: seq<Js>)
    ensures ContentItems(items).0 == Total(Texts(items))
  {
    if items != [] {
      var front, item := items[..|items| - 1], items[|items| - 1];
      ContentSize(front);
      if IsText(item) { assert Texts(items)[..|Texts(front)|] == Texts(front); }
      assert Texts(front) + [] == Texts(front);
    }
  }

  lemma ResultIsItsSize(stringify: Stringify, result: Js)
    ensures ResultContent(stringify, result).0 == ResultSize(stringify, result)
  {
    if Prop(result, "value").List? { ContentSize(Prop(result, "value").items); }
  }

  lemma IdsAreSearched(message: Js, ids: set<string>)
    ensures HasId(message, ids) <==> Prop(message, "id").Text? && Prop(message, "id").s in ids
  {
    if Prop(message, "id").Text? && Prop(message, "id").s in ids {
      assert Prop(message, "id") == Text(Prop(message, "id").s);
    }
  }

  lemma AttachmentIsAnObject(part: Js)
    ensures IsAttachment(part) <==> Prop(Prop(part, "metadata"), "attachment").Object?
  {
    var attachment := Prop(Prop(part, "metadata"), "attachment");
    if attachment.Object? { assert attachment == Object(attachment.props); }
  }

  lemma BucketOfText(message: Js, part: Js, sources: Sources)
    ensures TextBucket(message, part, sources)
      == if IsSummary(message, sources) then Memory
         else if IsInstruction(message, sources) then System
         else if IsAttachment(part) then Files
         else Messages
  {
    IdsAreSearched(message, sources.summaries);
    IdsAreSearched(message, sources.instructions);
    AttachmentIsAnObject(part);
  }

  lemma {:induction false} KnownAreTheCalls(slots: seq<Slot>)
    ensures KnownCalls(slots) == CallsOf(PartsIn(slots), map[])
  {
    if slots != [] {
      var front, last := slots[..|slots| - 1], slots[|slots| - 1];
      KnownAreTheCalls(front);
      if last.PartSlot? {
        var parts := PartsIn(slots);
        assert parts[..|parts| - 1] == PartsIn(front) && parts[|parts| - 1] == last.part;
      } else {
        assert PartsIn(front) + [] == PartsIn(front);
      }
    }
  }

  lemma BucketOfResult(part: Js, slots: seq<Slot>)
    ensures ResultBucket(part, KnownCalls(slots)) == if OfRead(part, PartsIn(slots)) then Files else ToolResults
  {
    KnownAreTheCalls(slots);
    var id := Prop(part, "id");
    if id.Text? { CallsKnowReads(PartsIn(slots), id.s); }
  }

  function AmountFor(m: Measure, b: Bucket): nat { if m.bucket == Some(b) then m.amount else 0 }

  lemma TextIsTheShare(b: Bucket, stringify: Stringify, message: Js, part: Js, sources: Sources, slots: seq<Slot>)
    requires HasKind(part, "text")
    ensures AmountFor(PartMeasure(stringify, message, part, sources, KnownCalls(slots)), b)
      == Share(b, stringify, message, part, sources, PartsIn(slots))
  {
    BucketOfText(message, part, sources);
  }

  lemma ResultIsTheShare(b: Bucket, stringify: Stringify, message: Js, part: Js, sources: Sources, slots: seq<Slot>)
    requires HasKind(part, "tool-result")
    ensures AmountFor(PartMeasure(stringify, message, part, sources, KnownCalls(slots)), b)
      == Share(b, stringify, message, part, sources, PartsIn(slots))
  {
    BucketOfResult(part, slots);
    ResultIsItsSize(stringify, Prop(part, "result"));
  }

  lemma OtherIsTheShare(b: Bucket, stringify: Stringify, message: Js, part: Js, sources: Sources, slots: seq<Slot>)
    requires !HasKind(part, "text") && !HasKind(part, "tool-result")
    ensures AmountFor(PartMeasure(stringify, message, part, sources, KnownCalls(slots)), b)
      == Share(b, stringify, message, part, sources, PartsIn(slots))
  {
  }

  /** A measured part adds to each counter its share. */
  lemma MeasureIsTheShare(b: Bucket, stringify: Stringify, message: Js, part: Js, sources: Sources, slots: seq<Slot>)
    ensures AmountFor(PartMeasure(stringify, message, part, sources, KnownCalls(slots)), b)
      == Share(b, stringify, message, part, sources, PartsIn(slots))
  {
    if HasKind(part, "text") {
      TextIsTheShare(b, stringify, message, part, sources, slots);
    } else if HasKind(part, "tool-result") {
      ResultIsTheShare(b, stringify, message, part, sources, slots);
    } else {
      OtherIsTheShare(b, stringify, message, part, sources, slots);
    }
  }

  lemma {:induction false} SlotsAddTheirShares(b: Bucket, stringify: Stringify, slots: seq<Slot>, sources: Sources,
                                               ms: seq<Measure>)
    requires Measured(stringify, slots, sources, ms)
    ensures Amount(ms, b) == Shares(b, stringify, slots, sources)
  {
    if slots != [] {
      var front, last := slots[..|slots| - 1], slots[|slots| - 1];
      MeasuredFront(stringify, slots, sources, ms);
      SlotsAddTheirShares(b, stringify, front, sources, ms[..|ms| - 1]);
      if last.PartSlot? { MeasureIsTheShare(b, stringify, last.message, last.part, sources, front); }
    }
  }

  lemma MeasuredFront(stringify: Stringify, slots: seq<Slot>, sources: Sources, ms: seq<Measure>)
    requires Measured(stringify, slots, sources, ms) && slots != []
    ensures Measured(stringify, slots[..|slots| - 1], sources, ms[..|ms| - 1])
    ensures ms[|ms| - 1] == SlotMeasure(stringify, slots[|slots| - 1], sources, KnownCalls(slots[..|slots| - 1]))
  {
    var front := slots[..|slots| - 1];
    assert forall k :: 0 <= k < |front| ==> front[..k] == slots[..k];
  }

  lemma {:induction false} AmountConcat(a: seq<Measure>, b: seq<Measure>, bucket: Bucket)
    ensures Amount(a + b, bucket) == Amount(a, bucket) + Amount(b, bucket)
  {
    if b == [] {
      assert a + b == a;
    } else {
      assert (a + b)[..|a + b| - 1] == a + b[..|b| - 1];
      AmountConcat(a, b[..|b| - 1], bucket);
    }
  }

  lemma {:induction false} SystemAdds(parts: seq<Js>, b: Bucket)
    ensures Amount(SystemMeasures(parts), b) == if b == System then SystemShares(parts) else 0
  {
    if parts != [] {
      var ms := SystemMeasures(parts);
      assert ms[..|ms| - 1] == SystemMeasures(parts[..|parts| - 1]);
      SystemAdds(parts[..|parts| - 1], b);
    }
  }

  lemma ToolAdds(stringify: Stringify, name: string, tool: Js)
    ensures var m := ToolMeasure(stringify, name, tool);
      (m.bucket == Some(Tools) && m.amount == ToolShare(stringify, name, tool))
      || (m.bucket.None? && ToolShare(stringify, name, tool) == 0)
  {
  }

  lemma {:induction false} ToolsAdd(stringify: Stringify, props: seq<(string, Js)>, b: Bucket)
    ensures Amount(ToolMeasures(stringify, props), b) == if b == Tools then ToolShares(stringify, props) else 0
  {
    if props != [] {
      var ms := ToolMeasures(stringify, props);
      assert ms[..|ms| - 1] == ToolMeasures(stringify, props[..|props| - 1]);
      ToolAdds(stringify, props[|props| - 1].0, props[|props| - 1].1);
      ToolsAdd(stringify, props[..|props| - 1], b);
    }
  }

  lemma ToolsOfAdd(stringify: Stringify, tools: Js, b: Bucket)
    ensures Amount(ToolsOf(stringify, tools), b) == if b == Tools
      && tools.Object? then ToolShares(stringify, tools.props) else 0
  {
    if tools.Object? {
      ToolsAdd(stringify, tools.props, b);
    } else {
      assert ToolsOf(stringify, tools)[..0] == [];
    }
  }

  /** Each counter of a composition is the sum of exactly its own parts. */
  lemma CountersAreDue(stringify: Stringify, model: string, system: seq<Js>, tools: Js, messages: seq<Js>,
                       sources: Sources,
                       b: Bucket)
    ensures Counter(RecordAll(Empty(model), Measures(stringify, system, tools, messages, sources)), b)
      == Due(b, stringify, system, tools, messages, sources)
  {
    var ms, mt, mm := SystemMeasures(system), ToolsOf(stringify, tools),
      WalkMessages(stringify, messages, sources).measures;
    CounterIsAmount(model, ms + mt + mm, b);
    AmountConcat(ms + mt, mm, b);
    AmountConcat(ms, mt, b);
    SystemAdds(system, b);
    ToolsOfAdd(stringify, tools, b);
    EveryPartIsMeasuredOnce(stringify, messages, sources);
    SlotsAddTheirShares(b, stringify, Slots(messages), sources, mm);
  }

  lemma CounterIsAmount(model: string, ms: seq<Measure>, b: Bucket)
    ensures Counter(RecordAll(Empty(model), ms), b) == Amount(ms, b)
  {
    CompositionConserves(model, ms);
  }

  // ----- `composition` -----

  /** What `composition` looks at in its event, whatever it holds. */
  datatype Event = Event(session: string, provider: Js, modelId: Js, system: Js, tools: Js, messages: Js)

  /**
   * There is a composition exactly for an event with a session, a model, a system list and a message list. Each of its
   * counters holds exactly its own parts, and it is incomplete exactly when something could not be counted.
   */
  method CompositionOf(stringify: Stringify, e: Event, sources: Sources) returns (r: Option<Composition>)
    ensures r.Some? <==> e.session != "" && e.system.List? && e.messages.List? && e.provider.Text? && e.modelId.Text?
    ensures r.Some? ==> r.value.model == e.provider.s + "/" + e.modelId.s
    ensures r.Some? ==> forall b ::
      Counter(r.value, b) == Due(b, stringify, e.system.items, e.tools, e.messages.items, sources)
    ensures r.Some? ==> (r.value.incomplete <==> RequestUnaccounted(e.system.items, e.tools, e.messages.items))
    ensures r.Some? ==> (r.value.opaqueReasoning <==> HiddenIn(Slots(e.messages.items), "reasoning"))
    ensures r.Some? ==> (r.value.opaqueMemory <==> HiddenIn(Slots(e.messages.items), "compaction"))
  {
    if e.session == "" || !e.system.List? || !e.messages.List? { return None; }
    if !e.provider.Text? || !e.modelId.Text? { return None; }
    var model, system, messages := e.provider.s + "/" + e.modelId.s, e.system.items, e.messages.items;
    var counts := Compose(stringify, model, system, e.tools, messages, sources);
    ModelIsKept(Empty(model), Measures(stringify, system, e.tools, messages, sources));
    forall b ensures Counter(counts, b) == Due(b, stringify, system, e.tools, messages, sources) {
      CountersAreDue(stringify, model, system, e.tools, messages, sources, b);
    }
    IncompleteExactly(stringify, model, system, e.tools, messages, sources);
    OpaqueFlagsExactly(stringify, model, system, e.tools, messages, sources);
    return Some(counts);
  }

  /** Some part of this kind hides its content. */
  ghost predicate HiddenIn(slots: seq<Slot>, kind: string) {
    exists k :: 0 <= k < |slots| && slots[k].PartSlot? && HasKind(slots[k].part, kind) && HidesContent(slots[k].part)
  }

  ghost predicate AnyReasoning(ms: seq<Measure>) { exists k :: 0 <= k < |ms| && ms[k].opaqueReasoning }

  ghost predicate AnyMemory(ms: seq<Measure>) { exists k :: 0 <= k < |ms| && ms[k].opaqueMemory }

  lemma OnlyTheLast(a: seq<Measure>, b: seq<Measure>)
    requires forall k :: 0 <= k < |a| ==> !a[k].opaqueReasoning && !a[k].opaqueMemory
    ensures AnyReasoning(a + b) <==> AnyReasoning(b)
    ensures AnyMemory(a + b) <==> AnyMemory(b)
  {
    if AnyReasoning(b) {
      var k :| 0 <= k < |b| && b[k].opaqueReasoning;
      assert (a + b)[|a| + k].opaqueReasoning;
    }
    if AnyMemory(b) {
      var k :| 0 <= k < |b| && b[k].opaqueMemory;
      assert (a + b)[|a| + k].opaqueMemory;
    }
    assert forall k :: |a| <= k < |a + b| ==> (a + b)[k] == b[k - |a|];
  }

  lemma {:induction false} SystemIsPlain(parts: seq<Js>)
    ensures forall k :: 0 <= k < |SystemMeasures(parts)| ==>
      !SystemMeasures(parts)[k].opaqueReasoning && !SystemMeasures(parts)[k].opaqueMemory
  {
    if parts != [] { SystemIsPlain(parts[..|parts| - 1]); }
  }

  lemma {:induction false} ToolsArePlain(stringify: Stringify, props: seq<(string, Js)>)
    ensures forall k :: 0 <= k < |ToolMeasures(stringify, props)| ==>
      !ToolMeasures(stringify, props)[k].opaqueReasoning && !ToolMeasures(stringify, props)[k].opaqueMemory
  {
    if props != [] { ToolsArePlain(stringify, props[..|props| - 1]); }
  }

  lemma HiddenSlots(stringify: Stringify, slots: seq<Slot>, sources: Sources, ms: seq<Measure>)
    requires Measured(stringify, slots, sources, ms)
    ensures AnyReasoning(ms) <==> HiddenIn(slots, "reasoning")
    ensures AnyMemory(ms) <==> HiddenIn(slots, "compaction")
  {
    forall k | 0 <= k < |slots|
      ensures ms[k].opaqueReasoning
        <==> slots[k].PartSlot? && HasKind(slots[k].part, "reasoning") && HidesContent(slots[k].part)
      ensures ms[k].opaqueMemory
        <==> slots[k].PartSlot? && HasKind(slots[k].part, "compaction") && HidesContent(slots[k].part)
    {
      if slots[k].PartSlot? {
        EveryPartIsAccountedFor(stringify, slots[k].message, slots[k].part, sources, KnownCalls(slots[..k]));
      }
    }
  }

  lemma OpaqueFlagsExactly(stringify: Stringify, model: string, system: seq<Js>, tools: Js, messages: seq<Js>,
                           sources: Sources)
    ensures var c := RecordAll(Empty(model), Measures(stringify, system, tools, messages, sources));
      && (c.opaqueReasoning <==> HiddenIn(Slots(messages), "reasoning"))
      && (c.opaqueMemory <==> HiddenIn(Slots(messages), "compaction"))
  {
    var ms, mt := SystemMeasures(system), ToolsOf(stringify, tools);
    var mm := WalkMessages(stringify, messages, sources).measures;
    FlagsAreAny(model, ms + mt + mm);
    SystemIsPlain(system);
    if tools.Object? { ToolsArePlain(stringify, tools.props); }
    OnlyTheLast(ms + mt, mm);
    EveryPartIsMeasuredOnce(stringify, messages, sources);
    HiddenSlots(stringify, Slots(messages), sources, mm);
  }

  lemma FlagsAreAny(model: string, ms: seq<Measure>)
    ensures RecordAll(Empty(model), ms).opaqueReasoning <==> AnyReasoning(ms)
    ensures RecordAll(Empty(model), ms).opaqueMemory <==> AnyMemory(ms)
  {
    CompositionConserves(model, ms);
  }
}
