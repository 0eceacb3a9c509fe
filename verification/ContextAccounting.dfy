/** resources/opencode-context-plugin.ts: the size estimate, the composition of a request, and its stored form. */
module ContextAccounting {
  import opened Options
  import opened Splitting

  /** A JavaScript value as it reaches the plugin; numbers are integers. */
  datatype Js =
    | Undefined
    | Null
    | Bool(b: bool)
    | Number(n: int)
    | Text(s: string)
    | List(items: seq<Js>)
    | Object(props: seq<(string, Js)>)

  /** `JSON.stringify`, or nothing when it returns undefined or throws. */
  type Stringify = Js -> Option<string>

  function Lookup(props: seq<(string, Js)>, key: string): Js {
    if props == [] then Undefined
    else if props[0].0 == key then props[0].1
    else Lookup(props[1..], key)
  }

  /** `value?.key` for the result of `object(value)`. */
  function Prop(v: Js, key: string): Js {
    if v.Object? then Lookup(v.props, key) else Undefined
  }

  // ----- Estimates -----

  function Ascii(s: string): nat {
    if s == [] then 0 else Ascii(s[..|s| - 1]) + if s[|s| - 1] as int < 128 then 1 else 0
  }

  /** `Math.ceil(ascii / 4) + other`, counted over code points. */
  function Estimate(s: string): nat
    requires Ascii(s) <= |s|
  {
    (Ascii(s) + 3) / 4 + (|s| - Ascii(s))
  }

  lemma {:induction false} AsciiBound(s: string)
    ensures Ascii(s) <= |s|
  {
    if s != [] { AsciiBound(s[..|s| - 1]); }
  }

  function EstimateText(s: string): nat {
    AsciiBound(s);
    Estimate(s)
  }

  method CountText(value: string) returns (estimate: nat)
    ensures estimate == EstimateText(value)
  {
    var ascii, other := 0, 0;
    for i := 0 to |value|
      invariant ascii == Ascii(value[..i]) && ascii + other == i
    {
      assert value[..i + 1][..i] == value[..i];
      if value[i] as int < 128 { ascii := ascii + 1; } else { other := other + 1; }
    }
    assert value[..|value|] == value;
    estimate := (ascii + 3) / 4 + other;
  }

  lemma {:induction false} AsciiIsACount(s: string)
    ensures Ascii(s) == |set k | 0 <= k < |s| && s[k] as int < 128|
  {
    var ascii := set k | 0 <= k < |s| && s[k] as int < 128;
    if s == [] {
      assert ascii == {};
    } else {
      var front := s[..|s| - 1];
      AsciiIsACount(front);
      var before := set k | 0 <= k < |front| && front[k] as int < 128;
      assert ascii == before + if s[|s| - 1] as int < 128 then {|s| - 1} else {};
    }
  }

  /** A unit for every four ASCII characters, begun ones included, and one for every other character. */
  lemma EstimateExactly(s: string)
    ensures var ascii := |set k | 0 <= k < |s| && s[k] as int < 128|;
      && ascii <= |s|
      && 4 * (EstimateText(s) - (|s| - ascii)) - 3 <= ascii <= 4 * (EstimateText(s) - (|s| - ascii))
  {
    AsciiBound(s);
    AsciiIsACount(s);
  }

  function EstimateValue(stringify: Stringify, v: Js): nat {
    if stringify(v).None? then 0 else EstimateText(stringify(v).value)
  }

  lemma {:induction false} AsciiConcat(a: string, b: string)
    ensures Ascii(a + b) == Ascii(a) + Ascii(b)
  {
    if b == [] {
      assert a + b == a;
    } else {
      assert (a + b)[..|a + b| - 1] == a + b[..|b| - 1];
      AsciiConcat(a, b[..|b| - 1]);
    }
  }

  function Total(parts: seq<string>): nat {
    if parts == [] then 0 else Total(parts[..|parts| - 1]) + EstimateText(parts[|parts| - 1])
  }

  lemma {:induction false} QuarterBounds(parts: seq<string>)
    ensures 4 * Total(parts) <= Ascii(Concat(parts)) + 3 * |parts| + 4 * (|Concat(parts)| - Ascii(Concat(parts)))
    ensures 4 * Total(parts) >= Ascii(Concat(parts)) + 4 * (|Concat(parts)| - Ascii(Concat(parts)))
  {
    if parts != [] {
      var front, last := parts[..|parts| - 1], parts[|parts| - 1];
      QuarterBounds(front);
      AsciiConcat(Concat(front), last);
      AsciiBound(last);
      AsciiBound(Concat(front));
    }
  }

  /**
   * Estimating in parts never loses and gains at most three quarters of a unit per part:
   * for k > 0 parts split at code points, at most k - 1.
   */
  lemma SplitEstimate(parts: seq<string>)
    ensures EstimateText(Concat(parts)) <= Total(parts) <= EstimateText(Concat(parts)) + 3 * |parts| / 4
    ensures parts != [] ==> Total(parts) <= EstimateText(Concat(parts)) + |parts| - 1
  {
    QuarterBounds(parts);
    AsciiBound(Concat(parts));
  }

  // ----- The composition -----

  datatype Bucket = System | Tools | Memory | Messages | Reasoning | ToolCalls | Files | ToolResults

  /** What one part of the input contributes. */
  datatype Measure = Measure(bucket: Option<Bucket>, amount: nat, incomplete: bool, opaqueReasoning: bool,
                             opaqueMemory: bool)

  function Skipped(): Measure { Measure(None, 0, true, false, false) }

  function Into(bucket: Bucket, amount: nat): Measure { Measure(Some(bucket), amount, false, false, false) }

  datatype Composition = Composition(
    model: string, system: nat, tools: nat, memory: nat, messages: nat, reasoning: nat, toolCalls: nat, files: nat,
    toolResults: nat, opaqueReasoning: bool, opaqueMemory: bool, incomplete: bool)

  function Empty(model: string): Composition {
    Composition(model, 0, 0, 0, 0, 0, 0, 0, 0, false, false, false)
  }

  function Add(c: Composition, bucket: Bucket, amount: nat): Composition {
    match bucket
    case System => c.(system := c.system + amount)
    case Tools => c.(tools := c.tools + amount)
    case Memory => c.(memory := c.memory + amount)
    case Messages => c.(messages := c.messages + amount)
    case Reasoning => c.(reasoning := c.reasoning + amount)
    case ToolCalls => c.(toolCalls := c.toolCalls + amount)
    case Files => c.(files := c.files + amount)
    case ToolResults => c.(toolResults := c.toolResults + amount)
  }

  function Record(c: Composition, m: Measure): Composition {
    var counted := if m.bucket.Some? then Add(c, m.bucket.value, m.amount) else c;
    counted.(incomplete := c.incomplete || m.incomplete,
             opaqueReasoning := c.opaqueReasoning || m.opaqueReasoning,
             opaqueMemory := c.opaqueMemory || m.opaqueMemory)
  }

  datatype Sources = Sources(summaries: set<string>, instructions: set<string>)

  const SEAL_KEYS := ["reasoningEncryptedContent", "encrypted_content", "encryptedContent", "encrypted", "signature"]

  predicate StateIsSealed(raw: Js) {
    raw.Object? && exists key :: key in SEAL_KEYS && Lookup(raw.props, key) != Undefined
  }

  predicate OpaquePart(part: Js) {
    Prop(part, "encrypted") != Undefined
    || (Prop(part, "providerMetadata").Object?
        && var metadata := Prop(part, "providerMetadata").props;
           if !Prop(part, "text").Text? || Prop(part, "text").s == [] then metadata != []
           else exists k :: 0 <= k < |metadata| && StateIsSealed(metadata[k].1))
  }

  /** The amount of a tool result and whether some of it could not be read. */
  function ContentItems(items: seq<Js>): (nat, bool) {
    if items == [] then (0, false)
    else
      var (amount, incomplete) := ContentItems(items[..|items| - 1]);
      var item := items[|items| - 1];
      if Prop(item, "type") == Text("text") && Prop(item, "text").Text? then
        (amount + EstimateText(Prop(item, "text").s), incomplete)
      else (amount, true)
  }

  function ResultContent(stringify: Stringify, v: Js): (nat, bool) {
    if !Prop(v, "type").Text? then
      if v.Object? && Prop(v, "error") != Undefined then
        (EstimateValue(stringify, Object([("error", Prop(v, "error")), ("content", Prop(v, "content"))])), false)
      else (0, true)
    else if Prop(v, "type") != Text("content") then
      (if Prop(v, "value").Text? then EstimateText(Prop(v, "value").s)
        else EstimateValue(stringify, Prop(v, "value")), false)
    else if !Prop(v, "value").List? then (0, true)
    else ContentItems(Prop(v, "value").items)
  }

  method CountValue(stringify: Stringify, v: Js) returns (estimate: nat)
    ensures estimate == EstimateValue(stringify, v)
  {
    var serialized := stringify(v);
    if serialized.None? { return 0; }
    estimate := CountText(serialized.value);
  }

  /** `resultContent`: the estimate, and whether it marked the composition incomplete. */
  method CountResult(stringify: Stringify, v: Js) returns (estimate: nat, incomplete: bool)
    ensures (estimate, incomplete) == ResultContent(stringify, v)
  {
    estimate, incomplete := 0, false;
    if !Prop(v, "type").Text? {
      if v.Object? && Prop(v, "error") != Undefined {
        estimate := CountValue(stringify, Object([("error", Prop(v, "error")), ("content", Prop(v, "content"))]));
        return;
      }
      return 0, true;
    }
    var value := Prop(v, "value");
    if Prop(v, "type") != Text("content") {
      if value.Text? { estimate := CountText(value.s); } else { estimate := CountValue(stringify, value); }
      return;
    }
    if !value.List? { return 0, true; }
    for i := 0 to |value.items|
      invariant (estimate, incomplete) == ContentItems(value.items[..i])
    {
      assert value.items[..i + 1][..i] == value.items[..i];
      var item := value.items[i];
      if Prop(item, "type") == Text("text") && Prop(item, "text").Text? {
        var more := CountText(Prop(item, "text").s);
        estimate := estimate + more;
      } else {
        incomplete := true;
      }
    }
    assert value.items[..|value.items|] == value.items;
  }

  function SystemMeasure(part: Js): Measure {
    if Prop(part, "type") == Text("text") && Prop(part, "text").Text? then
      Into(System, EstimateText(Prop(part, "text").s))
    else Skipped()
  }

  /** What of a tool's definition reaches the model. */
  function ToolDefinition(name: string, tool: Js): Js {
    Object([("name", Text(name)), ("description", Prop(tool, "description")), ("input", Prop(tool, "input"))])
  }

  function ToolMeasure(stringify: Stringify, name: string, tool: Js): Measure {
    if tool.Object? then
      Into(Tools, EstimateValue(stringify, ToolDefinition(name, tool)))
    else Skipped()
  }

  /** Whose text it is: a completed summary, an instruction, an attachment, or the conversation. */
  function TextBucket(message: Js, part: Js, sources: Sources): Bucket {
    var id := Prop(message, "id");
    if id.Text? && id.s in sources.summaries then Memory
    else if Prop(message, "role") == Text("system") || (id.Text? && id.s in sources.instructions) then System
    else if Prop(Prop(part, "metadata"), "attachment").Object? then Files
    else Messages
  }

  function ResultBucket(part: Js, calls: map<string, string>): Bucket {
    var id := Prop(part, "id");
    var name := if Prop(part, "name").Text? then Some(Prop(part, "name").s)
                else if id.Text? && id.s in calls then Some(calls[id.s])
                else None;
    if name == Some("read") || name == Some("read_file") then Files else ToolResults
  }

  function Sealed(part: Js, bucket: Bucket): Measure {
    var amount := if Prop(part, "text").Text? then EstimateText(Prop(part, "text").s) else 0;
    Measure(Some(bucket), amount, OpaquePart(part),
            OpaquePart(part) && bucket.Reasoning?, OpaquePart(part) && bucket.Memory?)
  }

  function PartMeasure(stringify: Stringify, message: Js, part: Js, sources: Sources,
                       calls: map<string, string>): Measure {
    if !Prop(part, "type").Text? then Skipped()
    else
      var kind := Prop(part, "type").s;
      if kind == "text" then
        if Prop(part, "text").Text? then Into(TextBucket(message, part, sources), EstimateText(Prop(part, "text").s))
          else Skipped()
      else if kind == "reasoning" then Sealed(part, Reasoning)
      else if kind == "tool-call" then
        Into(ToolCalls,
          EstimateValue(stringify, Object([("name", Prop(part, "name")), ("input", Prop(part, "input"))])))
      else if kind == "tool-result" then
        var (amount, incomplete) := ResultContent(stringify, Prop(part, "result"));
        Measure(Some(ResultBucket(part, calls)), amount, incomplete, false, false)
      else if kind == "compaction" then Sealed(part, Memory)
      else if kind == "effort" then Measure(None, 0, false, false, false)
      else Skipped()
  }

  method MeasureText(part: Js, bucket: Bucket) returns (m: Measure)
    ensures m == if Prop(part, "text").Text? then Into(bucket, EstimateText(Prop(part, "text").s)) else Skipped()
  {
    if !Prop(part, "text").Text? { return Skipped(); }
    var estimate := CountText(Prop(part, "text").s);
    return Into(bucket, estimate);
  }

  method MeasureSealed(part: Js, bucket: Bucket) returns (m: Measure)
    ensures m == Sealed(part, bucket)
  {
    var amount := 0;
    if Prop(part, "text").Text? { amount := CountText(Prop(part, "text").s); }
    var opaquePart := OpaquePart(part);
    return Measure(Some(bucket), amount, opaquePart, opaquePart && bucket.Reasoning?, opaquePart && bucket.Memory?);
  }

  /** The `switch` over one part. */
  method MeasurePart(stringify: Stringify, message: Js, part: Js, sources: Sources, calls: map<string, string>)
    returns (m: Measure)
    ensures m == PartMeasure(stringify, message, part, sources, calls)
  {
    if !Prop(part, "type").Text? { return Skipped(); }
    var kind := Prop(part, "type").s;
    if kind == "text" {
      m := MeasureText(part, TextBucket(message, part, sources));
    } else if kind == "reasoning" {
      m := MeasureSealed(part, Reasoning);
    } else if kind == "tool-call" {
      var amount := CountValue(stringify, Object([("name", Prop(part, "name")), ("input", Prop(part, "input"))]));
      m := Into(ToolCalls, amount);
    } else if kind == "tool-result" {
      var amount, incomplete := CountResult(stringify, Prop(part, "result"));
      m := Measure(Some(ResultBucket(part, calls)), amount, incomplete, false, false);
    } else if kind == "compaction" {
      m := MeasureSealed(part, Memory);
    } else if kind == "effort" {
      m := Measure(None, 0, false, false, false);
    } else {
      m := Skipped();
    }
  }

  function NextCalls(part: Js, calls: map<string, string>): map<string, string> {
    if Prop(part, "type") == Text("tool-call") && Prop(part, "id").Text? && Prop(part, "name").Text?
    then calls[Prop(part, "id").s := Prop(part, "name").s] else calls
  }

  // ----- The specification: the measures of all parts, in order -----

  function SystemMeasures(parts: seq<Js>): seq<Measure> {
    if parts == [] then [] else SystemMeasures(parts[..|parts| - 1]) + [SystemMeasure(parts[|parts| - 1])]
  }

  function ToolMeasures(stringify: Stringify, props: seq<(string, Js)>): seq<Measure> {
    if props == [] then []
    else
      var (name, tool) := props[|props| - 1];
      ToolMeasures(stringify, props[..|props| - 1]) + [ToolMeasure(stringify, name, tool)]
  }

  /** Measures and known tool calls after some parts or messages. */
  datatype Walk = Walk(measures: seq<Measure>, calls: map<string, string>)

  function WalkParts(stringify: Stringify, message: Js, parts: seq<Js>, sources: Sources, w: Walk): Walk {
    if parts == [] then w
    else
      var before := WalkParts(stringify, message, parts[..|parts| - 1], sources, w);
      var part := parts[|parts| - 1];
      Walk(before.measures + [PartMeasure(stringify, message, part, sources, before.calls)],
           NextCalls(part, before.calls))
  }

  function WalkMessages(stringify: Stringify, messages: seq<Js>, sources: Sources): Walk {
    if messages == [] then Walk([], map[])
    else
      var before := WalkMessages(stringify, messages[..|messages| - 1], sources);
      var message := messages[|messages| - 1];
      if !Prop(message, "content").List? then before.(measures := before.measures + [Skipped()])
      else WalkParts(stringify, message, Prop(message, "content").items, sources, before)
  }

  function ToolsOf(stringify: Stringify, tools: Js): seq<Measure> {
    if tools.Object? then ToolMeasures(stringify, tools.props) else [Skipped()]
  }

  function Measures(stringify: Stringify, system: seq<Js>, tools: Js, messages: seq<Js>,
                    sources: Sources): seq<Measure> {
    SystemMeasures(system) + ToolsOf(stringify, tools) + WalkMessages(stringify, messages, sources).measures
  }

  function RecordAll(c: Composition, ms: seq<Measure>): Composition {
    if ms == [] then c else Record(RecordAll(c, ms[..|ms| - 1]), ms[|ms| - 1])
  }

  lemma {:induction false} RecordConcat(c: Composition, a: seq<Measure>, b: seq<Measure>)
    ensures RecordAll(c, a + b) == RecordAll(RecordAll(c, a), b)
  {
    if b == [] {
      assert a + b == a;
    } else {
      assert (a + b)[..|a + b| - 1] == a + b[..|b| - 1];
      RecordConcat(c, a, b[..|b| - 1]);
    }
  }

  lemma RecordOne(c: Composition, ms: seq<Measure>, m: Measure)
    ensures RecordAll(c, ms + [m]) == Record(RecordAll(c, ms), m)
  {
    assert (ms + [m])[..|ms|] == ms;
  }

  // ----- The loops of `composition` -----

  method CountSystem(c: Composition, parts: seq<Js>) returns (r: Composition)
    ensures r == RecordAll(c, SystemMeasures(parts))
  {
    r := c;
    for i := 0 to |parts|
      invariant r == RecordAll(c, SystemMeasures(parts[..i]))
    {
      assert parts[..i + 1][..i] == parts[..i];
      RecordOne(c, SystemMeasures(parts[..i]), SystemMeasure(parts[i]));
      var m := Skipped();
      if Prop(parts[i], "type") == Text("text") { m := MeasureText(parts[i], System); }
      r := Record(r, m);
    }
    assert parts[..|parts|] == parts;
  }

  method CountTools(stringify: Stringify, c: Composition, tools: Js) returns (r: Composition)
    ensures r == RecordAll(c, ToolsOf(stringify, tools))
  {
    r := c;
    if !tools.Object? {
      RecordOne(c, [], Skipped());
      assert [] + [Skipped()] == [Skipped()];
      return Record(r, Skipped());
    }
    for i := 0 to |tools.props|
      invariant r == RecordAll(c, ToolMeasures(stringify, tools.props[..i]))
    {
      var (name, tool) := tools.props[i];
      assert tools.props[..i + 1][..i] == tools.props[..i];
      RecordOne(c, ToolMeasures(stringify, tools.props[..i]), ToolMeasure(stringify, name, tool));
      var m := Skipped();
      if tool.Object? {
        var amount := CountValue(stringify, ToolDefinition(name, tool));
        m := Into(Tools, amount);
      }
      r := Record(r, m);
    }
    assert tools.props[..|tools.props|] == tools.props;
  }

  method CountParts(stringify: Stringify, c: Composition, message: Js, parts: seq<Js>, sources: Sources,
                    known: map<string, string>, ghost w: Walk)
    returns (r: Composition, calls: map<string, string>)
    requires known == w.calls && c == RecordAll(Empty(c.model), w.measures)
    ensures r == RecordAll(Empty(c.model), WalkParts(stringify, message, parts, sources, w).measures)
    ensures calls == WalkParts(stringify, message, parts, sources, w).calls
  {
    r, calls := c, known;
    for i := 0 to |parts|
      invariant r == RecordAll(Empty(c.model), WalkParts(stringify, message, parts[..i], sources, w).measures)
      invariant calls == WalkParts(stringify, message, parts[..i], sources, w).calls
    {
      assert parts[..i + 1][..i] == parts[..i];
      ghost var before := WalkParts(stringify, message, parts[..i], sources, w).measures;
      var m := MeasurePart(stringify, message, parts[i], sources, calls);
      RecordOne(Empty(c.model), before, m);
      r := Record(r, m);
      calls := NextCalls(parts[i], calls);
    }
    assert parts[..|parts|] == parts;
  }

  lemma {:induction false} ModelIsKept(c: Composition, ms: seq<Measure>)
    ensures RecordAll(c, ms).model == c.model
  {
    if ms != [] { ModelIsKept(c, ms[..|ms| - 1]); }
  }

  /** `composition`, on an event that has a session, a model, a system list and a message list. */
  method Compose(stringify: Stringify, model: string, system: seq<Js>, tools: Js, messages: seq<Js>, sources: Sources)
    returns (r: Composition)
    ensures r == RecordAll(Empty(model), Measures(stringify, system, tools, messages, sources))
  {
    r := CountSystem(Empty(model), system);
    r := CountTools(stringify, r, tools);
    var calls: map<string, string> := map[];
    ghost var done := SystemMeasures(system) + ToolsOf(stringify, tools);
    assert done + [] == done;
    RecordConcat(Empty(model), SystemMeasures(system), ToolsOf(stringify, tools));
    for i := 0 to |messages|
      invariant calls == WalkMessages(stringify, messages[..i], sources).calls
      invariant r == RecordAll(Empty(model), done + WalkMessages(stringify, messages[..i], sources).measures)
    {
      var message := messages[i];
      assert messages[..i + 1][..i] == messages[..i];
      ghost var walked := WalkMessages(stringify, messages[..i], sources);
      ModelIsKept(Empty(model), done + walked.measures);
      if !Prop(message, "content").List? {
        MeasureMore(done, walked.measures, Skipped());
        RecordOne(Empty(model), done + walked.measures, Skipped());
        r := Record(r, Skipped());
      } else {
        WalkAfter(stringify, message, Prop(message, "content").items, sources, walked, done);
        r, calls := CountParts(stringify, r, message, Prop(message, "content").items, sources, calls,
                               walked.(measures := done + walked.measures));
      }
    }
    assert messages[..|messages|] == messages;
  }

  lemma MeasureMore(a: seq<Measure>, b: seq<Measure>, m: Measure)
    ensures a + (b + [m]) == (a + b) + [m]
  {
  }

  /** Measures taken earlier do not influence later ones. */
  lemma {:induction false} WalkAfter(stringify: Stringify, message: Js, parts: seq<Js>, sources: Sources, w: Walk,
                                     done: seq<Measure>)
    ensures var after := WalkParts(stringify, message, parts, sources, w);
      WalkParts(stringify, message, parts, sources, w.(measures := done + w.measures))
        == after.(measures := done + after.measures)
  {
    if parts != [] {
      var front := parts[..|parts| - 1];
      WalkAfter(stringify, message, front, sources, w, done);
      var before := WalkParts(stringify, message, front, sources, w);
      var m := PartMeasure(stringify, message, parts[|parts| - 1], sources, before.calls);
      assert (done + before.measures) + [m] == done + (before.measures + [m]);
    }
  }

  // ----- Conservation -----

  function Sum(c: Composition): nat {
    c.system + c.tools + c.memory + c.messages + c.reasoning + c.toolCalls + c.files + c.toolResults
  }

  function Counter(c: Composition, b: Bucket): nat {
    match b
    case System => c.system
    case Tools => c.tools
    case Memory => c.memory
    case Messages => c.messages
    case Reasoning => c.reasoning
    case ToolCalls => c.toolCalls
    case Files => c.files
    case ToolResults => c.toolResults
  }

  /** The amounts measured into one bucket. */
  function Amount(ms: seq<Measure>, b: Bucket): nat {
    if ms == [] then 0
    else Amount(ms[..|ms| - 1], b) + if ms[|ms| - 1].bucket == Some(b) then ms[|ms| - 1].amount else 0
  }

  function AmountOfAll(ms: seq<Measure>): nat {
    if ms == [] then 0
    else AmountOfAll(ms[..|ms| - 1]) + if ms[|ms| - 1].bucket.Some? then ms[|ms| - 1].amount else 0
  }

  /** The eight counters are the amounts of their own parts, they sum to all of them, and the flags miss nothing. */
  lemma {:induction false} CompositionConserves(model: string, ms: seq<Measure>)
    ensures var c := RecordAll(Empty(model), ms);
      && Sum(c) == AmountOfAll(ms)
      && (forall b :: Counter(c, b) == Amount(ms, b))
      && (c.incomplete <==> exists k :: 0 <= k < |ms| && ms[k].incomplete)
      && (c.opaqueReasoning <==> exists k :: 0 <= k < |ms| && ms[k].opaqueReasoning)
      && (c.opaqueMemory <==> exists k :: 0 <= k < |ms| && ms[k].opaqueMemory)
  {
    if ms != [] {
      var front, last := ms[..|ms| - 1], ms[|ms| - 1];
      CompositionConserves(model, front);
      RecordKeeps(RecordAll(Empty(model), front), last);
      assert ms == front + [last];
    }
  }

  lemma AddKeeps(c: Composition, bucket: Bucket, amount: nat, b: Bucket)
    ensures Sum(Add(c, bucket, amount)) == Sum(c) + amount
    ensures Counter(Add(c, bucket, amount), b) == Counter(c, b) + if bucket == b then amount else 0
  {
  }

  lemma RecordKeeps(c: Composition, m: Measure)
    ensures Sum(Record(c, m)) == Sum(c) + if m.bucket.Some? then m.amount else 0
    ensures forall b :: Counter(Record(c, m), b) == Counter(c, b) + if m.bucket == Some(b) then m.amount else 0
  {
    var counted := if m.bucket.Some? then Add(c, m.bucket.value, m.amount) else c;
    assert Sum(Record(c, m)) == Sum(counted);
    if m.bucket.Some? { AddKeeps(c, m.bucket.value, m.amount, System); }
    forall b ensures Counter(Record(c, m), b) == Counter(c, b) + if m.bucket == Some(b) then m.amount else 0 {
      assert Counter(Record(c, m), b) == Counter(counted, b);
      if m.bucket.Some? { AddKeeps(c, m.bucket.value, m.amount, b); }
    }
  }

  // ----- Each part once -----

  /** What the walk over the messages meets: each part of a readable message, and each unreadable message. */
  datatype Slot = PartSlot(message: Js, part: Js) | NoContent

  function SlotsOf(message: Js, parts: seq<Js>): (r: seq<Slot>)
    ensures |r| == |parts| && forall k :: 0 <= k < |r| ==> r[k] == PartSlot(message, parts[k])
  {
    seq(|parts|, k requires 0 <= k < |parts| => PartSlot(message, parts[k]))
  }

  function Slots(messages: seq<Js>): seq<Slot> {
    if messages == [] then []
    else
      var message := messages[|messages| - 1];
      Slots(messages[..|messages| - 1])
      + if Prop(message, "content").List? then SlotsOf(message, Prop(message, "content").items) else [NoContent]
  }

  /** The tool names known after some slots. */
  function KnownCalls(slots: seq<Slot>): map<string, string> {
    if slots == [] then map[]
    else if slots[|slots| - 1].NoContent? then KnownCalls(slots[..|slots| - 1])
    else NextCalls(slots[|slots| - 1].part, KnownCalls(slots[..|slots| - 1]))
  }

  function SlotMeasure(stringify: Stringify, slot: Slot, sources: Sources, calls: map<string, string>): Measure {
    match slot
    case NoContent => Skipped()
    case PartSlot(message, part) => PartMeasure(stringify, message, part, sources, calls)
  }

  ghost predicate Measured(stringify: Stringify, slots: seq<Slot>, sources: Sources, ms: seq<Measure>) {
    |ms| == |slots| && forall k :: 0 <= k < |ms| ==>
      ms[k] == SlotMeasure(stringify, slots[k], sources, KnownCalls(slots[..k]))
  }

  lemma MeasuredMore(stringify: Stringify, slots: seq<Slot>, sources: Sources, ms: seq<Measure>, slot: Slot)
    requires Measured(stringify, slots, sources, ms)
    ensures Measured(stringify, slots + [slot], sources,
                     ms + [SlotMeasure(stringify, slot, sources, KnownCalls(slots))])
  {
    var all := slots + [slot];
    assert forall k :: 0 <= k <= |slots| ==> all[..k] == slots[..k];
    assert slots[..|slots|] == slots;
  }

  lemma KnownMore(slots: seq<Slot>, slot: Slot)
    ensures KnownCalls(slots + [slot]) == if slot.NoContent? then KnownCalls(slots)
      else NextCalls(slot.part, KnownCalls(slots))
  {
    assert (slots + [slot])[..|slots|] == slots;
  }

  /** What the walk has so far stands for the slots so far. */
  ghost predicate Walked(stringify: Stringify, slots: seq<Slot>, sources: Sources, w: Walk) {
    Measured(stringify, slots, sources, w.measures) && w.calls == KnownCalls(slots)
  }

  lemma WalkOneMore(stringify: Stringify, slots: seq<Slot>, message: Js, part: Js, sources: Sources, w: Walk)
    requires Walked(stringify, slots, sources, w)
    ensures Walked(stringify, slots + [PartSlot(message, part)], sources,
                   Walk(w.measures + [PartMeasure(stringify, message, part, sources, w.calls)],
                        NextCalls(part, w.calls)))
  {
    MeasuredMore(stringify, slots, sources, w.measures, PartSlot(message, part));
    KnownMore(slots, PartSlot(message, part));
  }

  lemma SlotsMore(message: Js, parts: seq<Js>, slots: seq<Slot>)
    requires parts != []
    ensures slots + SlotsOf(message, parts)
      == (slots + SlotsOf(message, parts[..|parts| - 1])) + [PartSlot(message, parts[|parts| - 1])]
  {
  }

  lemma {:induction false} PartsAreMeasured(stringify: Stringify, message: Js, parts: seq<Js>, sources: Sources,
                                            w: Walk, slots: seq<Slot>)
    requires Walked(stringify, slots, sources, w)
    ensures Walked(stringify, slots + SlotsOf(message, parts), sources,
                   WalkParts(stringify, message, parts, sources, w))
  {
    if parts == [] {
      assert slots + SlotsOf(message, parts) == slots;
    } else {
      var front, part := parts[..|parts| - 1], parts[|parts| - 1];
      PartsAreMeasured(stringify, message, front, sources, w, slots);
      WalkOneMore(stringify, slots + SlotsOf(message, front), message, part, sources,
                  WalkParts(stringify, message, front, sources, w));
      SlotsMore(message, parts, slots);
    }
  }

  /** Each part is measured once, in order, knowing the tool names of exactly the calls before it. */
  lemma {:induction false} EveryPartIsMeasuredOnce(stringify: Stringify, messages: seq<Js>, sources: Sources)
    ensures Measured(stringify, Slots(messages), sources, WalkMessages(stringify, messages, sources).measures)
    ensures WalkMessages(stringify, messages, sources).calls == KnownCalls(Slots(messages))
  {
    if messages != [] {
      var front, message := messages[..|messages| - 1], messages[|messages| - 1];
      EveryPartIsMeasuredOnce(stringify, front, sources);
      var before := WalkMessages(stringify, front, sources);
      if Prop(message, "content").List? {
        PartsAreMeasured(stringify, message, Prop(message, "content").items, sources, before, Slots(front));
      } else {
        MeasuredMore(stringify, Slots(front), sources, before.measures, NoContent);
        KnownMore(Slots(front), NoContent);
      }
    }
  }

  // ----- Exactly when a composition is incomplete -----

  predicate IsText(v: Js) { Prop(v, "type") == Text("text") && Prop(v, "text").Text? }

  ghost predicate SomeUnreadable(items: seq<Js>) {
    exists k :: 0 <= k < |items| && !IsText(items[k])
  }

  /** A tool result of which something could not be read. */
  ghost predicate ResultUnreadable(v: Js) {
    if !Prop(v, "type").Text? then !v.Object? || Prop(v, "error") == Undefined
    else Prop(v, "type") == Text("content")
         && (!Prop(v, "value").List? || SomeUnreadable(Prop(v, "value").items))
  }

  const KINDS := {"text", "reasoning", "tool-call", "tool-result", "compaction", "effort"}

  /** One of the marks a provider leaves on content it has sealed. */
  ghost predicate Seals(v: Js) {
    exists state :: v == Object(state)
      && (Lookup(state, "reasoningEncryptedContent") != Undefined || Lookup(state, "encrypted_content") != Undefined
          || Lookup(state, "encryptedContent") != Undefined || Lookup(state, "encrypted") != Undefined
          || Lookup(state, "signature") != Undefined)
  }

  ghost predicate SomeSeal(metadata: seq<(string, Js)>) {
    exists k :: 0 <= k < |metadata| && Seals(metadata[k].1)
  }

  /**
   * There is content the estimate cannot see: the part is encrypted, or a provider's metadata stands in for
   * its text, or seals it.
   */
  ghost predicate HidesContent(part: Js) {
    || Prop(part, "encrypted") != Undefined
    || exists metadata :: Prop(part, "providerMetadata") == Object(metadata)
         && if exists s :: Prop(part, "text") == Text(s) && s != "" then SomeSeal(metadata) else metadata != []
  }

  lemma SealsExactly(v: Js)
    ensures StateIsSealed(v) <==> Seals(v)
  {
    if v.Object? {
      assert v == Object(v.props);
      assert SEAL_KEYS[0] in SEAL_KEYS && SEAL_KEYS[1] in SEAL_KEYS && SEAL_KEYS[2] in SEAL_KEYS;
      assert SEAL_KEYS[3] in SEAL_KEYS && SEAL_KEYS[4] in SEAL_KEYS;
    }
  }

  lemma OpaqueExactly(part: Js)
    ensures OpaquePart(part) <==> HidesContent(part)
  {
    var v, text := Prop(part, "providerMetadata"), Prop(part, "text");
    if v.Object? {
      assert v == Object(v.props);
      forall k | 0 <= k < |v.props| ensures StateIsSealed(v.props[k].1) <==> Seals(v.props[k].1) {
        SealsExactly(v.props[k].1);
      }
    }
    if text.Text? { assert text == Text(text.s); }
  }

  /** A part that is skipped, opaque or not wholly readable. */
  ghost predicate PartUnaccounted(part: Js) {
    var kind := Prop(part, "type");
    || !kind.Text? || kind.s !in KINDS
    || (kind.s == "text" && !IsText(part))
    || (kind.s in {"reasoning", "compaction"} && HidesContent(part))
    || (kind.s == "tool-result" && ResultUnreadable(Prop(part, "result")))
  }

  lemma {:induction false} ContentUnreadable(items: seq<Js>)
    ensures ContentItems(items).1 <==> SomeUnreadable(items)
  {
    if items != [] {
      var front := items[..|items| - 1];
      ContentUnreadable(front);
      if k :| 0 <= k < |items| && !IsText(items[k]) { assert k < |front| ==> front[k] == items[k]; }
    }
  }

  /** A part's measure is incomplete exactly when the part is; without a bucket it counts nothing. */
  lemma EveryPartIsAccountedFor(stringify: Stringify, message: Js, part: Js, sources: Sources,
                                calls: map<string, string>)
    ensures var m := PartMeasure(stringify, message, part, sources, calls);
      && (m.incomplete <==> PartUnaccounted(part))
      && (m.bucket.None? ==> m.amount == 0 && (PartUnaccounted(part) || Prop(part, "type") == Text("effort")))
      && (m.opaqueReasoning <==> Prop(part, "type") == Text("reasoning") && HidesContent(part))
      && (m.opaqueMemory <==> Prop(part, "type") == Text("compaction") && HidesContent(part))
  {
    OpaqueExactly(part);
    var result := Prop(part, "result");
    if Prop(result, "value").List? { ContentUnreadable(Prop(result, "value").items); }
  }

  ghost predicate SlotUnaccounted(slot: Slot) {
    slot.NoContent? || PartUnaccounted(slot.part)
  }

  /** Something in the request was skipped, opaque or unreadable. */
  ghost predicate RequestUnaccounted(system: seq<Js>, tools: Js, messages: seq<Js>) {
    SystemUnaccounted(system) || ToolsUnaccounted(tools) || SlotsUnaccounted(Slots(messages))
  }

  ghost predicate SystemUnaccounted(system: seq<Js>) {
    exists k :: 0 <= k < |system| && !IsText(system[k])
  }

  ghost predicate ToolsUnaccounted(tools: Js) {
    !tools.Object? || exists k :: 0 <= k < |tools.props| && !tools.props[k].1.Object?
  }

  ghost predicate SlotsUnaccounted(slots: seq<Slot>) {
    exists k :: 0 <= k < |slots| && SlotUnaccounted(slots[k])
  }

  ghost predicate AnyIncomplete(ms: seq<Measure>) {
    exists k :: 0 <= k < |ms| && ms[k].incomplete
  }

  lemma AnyIncompleteConcat(a: seq<Measure>, b: seq<Measure>)
    ensures AnyIncomplete(a + b) <==> AnyIncomplete(a) || AnyIncomplete(b)
  {
    if AnyIncomplete(a) {
      var k :| 0 <= k < |a| && a[k].incomplete;
      assert (a + b)[k].incomplete;
    }
    if AnyIncomplete(b) {
      var k :| 0 <= k < |b| && b[k].incomplete;
      assert (a + b)[|a| + k].incomplete;
    }
  }

  lemma {:induction false} SystemIncomplete(parts: seq<Js>)
    ensures AnyIncomplete(SystemMeasures(parts)) <==> SystemUnaccounted(parts)
  {
    if parts != [] {
      var front, last := parts[..|parts| - 1], parts[|parts| - 1];
      SystemIncomplete(front);
      AnyIncompleteConcat(SystemMeasures(front), [SystemMeasure(last)]);
      assert [SystemMeasure(last)][0].incomplete <==> !IsText(last);
      assert forall k :: 0 <= k < |front| ==> front[k] == parts[k];
    }
  }

  lemma {:induction false} ToolsIncomplete(stringify: Stringify, props: seq<(string, Js)>)
    ensures AnyIncomplete(ToolMeasures(stringify, props)) <==> exists k :: 0 <= k < |props| && !props[k].1.Object?
  {
    if props != [] {
      var front, last := props[..|props| - 1], props[|props| - 1];
      ToolsIncomplete(stringify, front);
      AnyIncompleteConcat(ToolMeasures(stringify, front), [ToolMeasure(stringify, last.0, last.1)]);
      assert [ToolMeasure(stringify, last.0, last.1)][0].incomplete <==> !last.1.Object?;
      assert forall k :: 0 <= k < |front| ==> front[k] == props[k];
    }
  }

  lemma MessagesIncomplete(stringify: Stringify, messages: seq<Js>, sources: Sources)
    ensures AnyIncomplete(WalkMessages(stringify, messages, sources).measures) <==> SlotsUnaccounted(Slots(messages))
  {
    EveryPartIsMeasuredOnce(stringify, messages, sources);
    var slots, ms := Slots(messages), WalkMessages(stringify, messages, sources).measures;
    forall k | 0 <= k < |slots| ensures ms[k].incomplete <==> SlotUnaccounted(slots[k]) {
      if slots[k].PartSlot? {
        EveryPartIsAccountedFor(stringify, slots[k].message, slots[k].part, sources, KnownCalls(slots[..k]));
      }
    }
  }

  /** A composition is incomplete exactly when something in the request was skipped, opaque or unreadable. */
  lemma IncompleteExactly(stringify: Stringify, model: string, system: seq<Js>, tools: Js, messages: seq<Js>,
                          sources: Sources)
    ensures RecordAll(Empty(model), Measures(stringify, system, tools, messages, sources)).incomplete
      <==> RequestUnaccounted(system, tools, messages)
  {
    var a, b, c := SystemMeasures(system), ToolsOf(stringify, tools),
      WalkMessages(stringify, messages, sources).measures;
    IncompleteIsAny(model, a + b + c);
    ThreeIncomplete(a, b, c);
    SystemIncomplete(system);
    ToolsOfIncomplete(stringify, tools);
    MessagesIncomplete(stringify, messages, sources);
  }

  lemma ThreeIncomplete(a: seq<Measure>, b: seq<Measure>, c: seq<Measure>)
    ensures AnyIncomplete(a + b + c) <==> AnyIncomplete(a) || AnyIncomplete(b) || AnyIncomplete(c)
  {
    AnyIncompleteConcat(a + b, c);
    AnyIncompleteConcat(a, b);
  }

  lemma IncompleteIsAny(model: string, ms: seq<Measure>)
    ensures RecordAll(Empty(model), ms).incomplete <==> AnyIncomplete(ms)
  {
    CompositionConserves(model, ms);
  }

  lemma ToolsOfIncomplete(stringify: Stringify, tools: Js)
    ensures AnyIncomplete(ToolsOf(stringify, tools)) <==> ToolsUnaccounted(tools)
  {
    if tools.Object? {
      ToolsIncomplete(stringify, tools.props);
    } else {
      assert ToolsOf(stringify, tools)[0].incomplete;
    }
  }

  // ----- Which tool a result belongs to -----

  /** All parts of all messages whose content can be read, in order. */
  function AllParts(messages: seq<Js>): seq<Js> {
    if messages == [] then []
    else
      var content := Prop(messages[|messages| - 1], "content");
      AllParts(messages[..|messages| - 1]) + if content.List? then content.items else []
  }

  /** The part is a call with this id of a named tool. */
  predicate IsCall(part: Js, id: string) {
    Prop(part, "type") == Text("tool-call") && Prop(part, "id") == Text(id) && Prop(part, "name").Text?
  }

  function CallsOf(parts: seq<Js>, known: map<string, string>): map<string, string> {
    if parts == [] then known else NextCalls(parts[|parts| - 1], CallsOf(parts[..|parts| - 1], known))
  }

  lemma {:induction false} CallsConcat(a: seq<Js>, b: seq<Js>, known: map<string, string>)
    ensures CallsOf(a + b, known) == CallsOf(b, CallsOf(a, known))
  {
    if b == [] {
      assert a + b == a;
    } else {
      assert (a + b)[..|a + b| - 1] == a + b[..|b| - 1];
      CallsConcat(a, b[..|b| - 1], known);
    }
  }

  lemma {:induction false} PartsRememberCalls(stringify: Stringify, message: Js, parts: seq<Js>, sources: Sources,
                                              w: Walk)
    ensures WalkParts(stringify, message, parts, sources, w).calls == CallsOf(parts, w.calls)
  {
    if parts != [] { PartsRememberCalls(stringify, message, parts[..|parts| - 1], sources, w); }
  }

  lemma {:induction false} MessagesRememberCalls(stringify: Stringify, messages: seq<Js>, sources: Sources)
    ensures WalkMessages(stringify, messages, sources).calls == CallsOf(AllParts(messages), map[])
  {
    if messages != [] {
      var front, message := messages[..|messages| - 1], messages[|messages| - 1];
      MessagesRememberCalls(stringify, front, sources);
      var items := if Prop(message, "content").List? then Prop(message, "content").items else [];
      CallsConcat(AllParts(front), items, map[]);
      PartsRememberCalls(stringify, message, items, sources, WalkMessages(stringify, front, sources));
    }
  }

  lemma {:induction false} LatestCallCounts(parts: seq<Js>, k: nat, id: string)
    requires k < |parts| && IsCall(parts[k], id) && forall j :: k < j < |parts| ==> !IsCall(parts[j], id)
    ensures id in CallsOf(parts, map[]) && CallsOf(parts, map[])[id] == Prop(parts[k], "name").s
  {
    if k < |parts| - 1 {
      assert !IsCall(parts[|parts| - 1], id);
      LatestCallCounts(parts[..|parts| - 1], k, id);
    }
  }

  lemma {:induction false} NoCallNoName(parts: seq<Js>, id: string)
    requires forall j :: 0 <= j < |parts| ==> !IsCall(parts[j], id)
    ensures id !in CallsOf(parts, map[])
  {
    if parts != [] {
      assert !IsCall(parts[|parts| - 1], id);
      NoCallNoName(parts[..|parts| - 1], id);
    }
  }

  /** The part is a result of the call with this id and does not name its tool. */
  predicate UnnamedResult(part: Js, id: string) {
    Prop(part, "type") == Text("tool-result") && Prop(part, "id") == Text(id) && !Prop(part, "name").Text?
  }

  /** The latest call with this id was a read. */
  ghost predicate LatestIsRead(parts: seq<Js>, id: string) {
    exists k :: 0 <= k < |parts| && IsCall(parts[k], id) && (forall j :: k < j < |parts| ==> !IsCall(parts[j], id))
                && Prop(parts[k], "name").s in {"read", "read_file"}
  }

  predicate IsRead(calls: map<string, string>, id: string) {
    id in calls && calls[id] in {"read", "read_file"}
  }

  lemma CallsKnowReads(parts: seq<Js>, id: string)
    ensures IsRead(CallsOf(parts, map[]), id) <==> LatestIsRead(parts, id)
  {
    if forall j :: 0 <= j < |parts| ==> !IsCall(parts[j], id) {
      NoCallNoName(parts, id);
    } else {
      var k := LatestCall(parts, id);
      LatestCallCounts(parts, k, id);
    }
  }

  lemma UnnamedBucket(stringify: Stringify, message: Js, part: Js, sources: Sources, calls: map<string, string>,
                      id: string)
    requires UnnamedResult(part, id)
    ensures PartMeasure(stringify, message, part, sources, calls).bucket
      == Some(if IsRead(calls, id) then Files else ToolResults)
  {
  }

  /**
   * A result that does not name its tool is counted as a file exactly when the latest call with its id, anywhere
   * before it in the request, was a read; otherwise it is a tool result.
   */
  lemma UnnamedResultsFollowTheirCall(stringify: Stringify, messages: seq<Js>, message: Js, earlier: seq<Js>, part: Js,
                                      sources: Sources, id: string)
    requires UnnamedResult(part, id)
    ensures var calls := WalkParts(stringify, message, earlier, sources,
      WalkMessages(stringify, messages, sources)).calls;
      PartMeasure(stringify, message, part, sources, calls).bucket
      == Some(if LatestIsRead(AllParts(messages) + earlier, id) then Files else ToolResults)
  {
    MessagesRememberCalls(stringify, messages, sources);
    PartsRememberCalls(stringify, message, earlier, sources, WalkMessages(stringify, messages, sources));
    CallsConcat(AllParts(messages), earlier, map[]);
    CallsKnowReads(AllParts(messages) + earlier, id);
    UnnamedBucket(stringify, message, part, sources, CallsOf(AllParts(messages) + earlier, map[]), id);
  }

  lemma {:induction false} LatestCall(parts: seq<Js>, id: string) returns (k: nat)
    requires exists j :: 0 <= j < |parts| && IsCall(parts[j], id)
    ensures k < |parts| && IsCall(parts[k], id) && forall j :: k < j < |parts| ==> !IsCall(parts[j], id)
  {
    k := |parts| - 1;
    if !IsCall(parts[k], id) {
      var front := parts[..|parts| - 1];
      var j :| 0 <= j < |parts| && IsCall(parts[j], id);
      assert IsCall(front[j], id);
      k := LatestCall(front, id);
    }
  }

  // ----- The stored form -----

  const MAX_SAFE_INTEGER := 9_007_199_254_740_991

  function Stored(c: Composition): Js {
    Object([("version", Number(2)), ("model", Text(c.model)), ("system", Number(c.system)), ("tools", Number(c.tools)),
            ("memory", Number(c.memory)), ("messages", Number(c.messages)), ("reasoning", Number(c.reasoning)),
            ("toolCalls", Number(c.toolCalls)), ("files", Number(c.files)), ("toolResults", Number(c.toolResults)),
            ("opaqueReasoning", Bool(c.opaqueReasoning)), ("opaqueMemory", Bool(c.opaqueMemory)),
            ("incomplete", Bool(c.incomplete))])
  }

  predicate SafeCounter(v: Js) { v.Number? && 0 <= v.n <= MAX_SAFE_INTEGER }

  function Parse(v: Js): Option<Composition> {
    if !v.Object? || Prop(v, "version") != Number(2) || !Prop(v, "model").Text? || !Prop(v, "incomplete").Bool?
       || !Prop(v, "opaqueReasoning").Bool? || !Prop(v, "opaqueMemory").Bool? then None
    else if !(SafeCounter(Prop(v, "system")) && SafeCounter(Prop(v, "tools")) && SafeCounter(Prop(v, "memory"))
              && SafeCounter(Prop(v, "messages")) && SafeCounter(Prop(v, "reasoning"))
              && SafeCounter(Prop(v, "toolCalls"))
              && SafeCounter(Prop(v, "files")) && SafeCounter(Prop(v, "toolResults"))) then None
    else
      Some(Composition(Prop(v, "model").s, Prop(v, "system").n, Prop(v, "tools").n, Prop(v, "memory").n,
                       Prop(v, "messages").n,
                       Prop(v, "reasoning").n, Prop(v, "toolCalls").n, Prop(v, "files").n, Prop(v, "toolResults").n,
                       Prop(v, "opaqueReasoning").b, Prop(v, "opaqueMemory").b, Prop(v, "incomplete").b))
  }

  const FIELDS := ["version", "model", "system", "tools", "memory", "messages", "reasoning", "toolCalls", "files",
                   "toolResults", "opaqueReasoning", "opaqueMemory", "incomplete"]

  lemma FieldsAreDistinct()
    ensures forall i, j :: 0 <= i < j < |FIELDS| ==> FIELDS[i] != FIELDS[j]
  {
  }

  lemma {:induction false} LookupAt(props: seq<(string, Js)>, k: nat)
    requires k < |props| && forall j :: 0 <= j < k ==> props[j].0 != props[k].0
    ensures Lookup(props, props[k].0) == props[k].1
  {
    if k > 0 { LookupAt(props[1..], k - 1); }
  }

  lemma StoredField(c: Composition, k: nat)
    requires k < |FIELDS|
    ensures |Stored(c).props| == |FIELDS| && Stored(c).props[k].0 == FIELDS[k]
    ensures Prop(Stored(c), FIELDS[k]) == Stored(c).props[k].1
  {
    FieldsAreDistinct();
    var props := Stored(c).props;
    assert forall j :: 0 <= j < |FIELDS| ==> props[j].0 == FIELDS[j];
    LookupAt(props, k);
  }

  lemma StoredFields(c: Composition)
    ensures var v := Stored(c);
      && Prop(v, "version") == Number(2) && Prop(v, "model") == Text(c.model)
      && Prop(v, "system") == Number(c.system) && Prop(v, "tools") == Number(c.tools)
      && Prop(v, "memory") == Number(c.memory) && Prop(v, "messages") == Number(c.messages)
      && Prop(v, "reasoning") == Number(c.reasoning) && Prop(v, "toolCalls") == Number(c.toolCalls)
      && Prop(v, "files") == Number(c.files) && Prop(v, "toolResults") == Number(c.toolResults)
      && Prop(v, "opaqueReasoning") == Bool(c.opaqueReasoning) && Prop(v, "opaqueMemory") == Bool(c.opaqueMemory)
      && Prop(v, "incomplete") == Bool(c.incomplete)
  {
    StoredField(c, 0); StoredField(c, 1); StoredField(c, 2); StoredField(c, 3); StoredField(c, 4);
    StoredField(c, 5); StoredField(c, 6); StoredField(c, 7); StoredField(c, 8); StoredField(c, 9);
    StoredField(c, 10); StoredField(c, 11); StoredField(c, 12);
  }

  ghost predicate AllSafe(c: Composition) {
    forall b :: Counter(c, b) <= 9_007_199_254_740_991
  }

  lemma AllSafeMeans(c: Composition)
    ensures AllSafe(c) <==>
      (c.system <= MAX_SAFE_INTEGER && c.tools <= MAX_SAFE_INTEGER && c.memory <= MAX_SAFE_INTEGER
       && c.messages <= MAX_SAFE_INTEGER && c.reasoning <= MAX_SAFE_INTEGER
         && c.toolCalls <= MAX_SAFE_INTEGER
       && c.files <= MAX_SAFE_INTEGER && c.toolResults <= MAX_SAFE_INTEGER)
  {
    if AllSafe(c) {
      assert Counter(c, System) <= MAX_SAFE_INTEGER && Counter(c, Tools) <= MAX_SAFE_INTEGER;
      assert Counter(c, Memory) <= MAX_SAFE_INTEGER && Counter(c, Messages) <= MAX_SAFE_INTEGER;
      assert Counter(c, Reasoning) <= MAX_SAFE_INTEGER && Counter(c, ToolCalls) <= MAX_SAFE_INTEGER;
      assert Counter(c, Files) <= MAX_SAFE_INTEGER && Counter(c, ToolResults) <= MAX_SAFE_INTEGER;
    }
  }

  /** A stored composition is read back exactly when every counter is a safe integer. */
  lemma StoredRoundTrip(c: Composition)
    ensures Parse(Stored(c)) == if AllSafe(c) then Some(c) else None
  {
    StoredFields(c);
    AllSafeMeans(c);
  }

  /**
   * What is read back is exactly what was stored: a value parses to a composition if and only if it is an object
   * that has every field of that composition's stored form and its counters are safe.
   */
  lemma ParseExactly(v: Js, c: Composition)
    ensures Parse(v) == Some(c) <==>
      v.Object? && AllSafe(c) && forall k :: 0 <= k < |FIELDS| ==> Prop(v, FIELDS[k]) == Prop(Stored(c), FIELDS[k])
  {
    StoredFields(c);
    AllSafeMeans(c);
    FieldsAre();
  }

  lemma FieldsAre()
    ensures |FIELDS| == 13
    ensures FIELDS[0] == "version" && FIELDS[1] == "model" && FIELDS[2] == "system" && FIELDS[3] == "tools"
    ensures FIELDS[4] == "memory" && FIELDS[5] == "messages" && FIELDS[6] == "reasoning" && FIELDS[7] == "toolCalls"
    ensures FIELDS[8] == "files" && FIELDS[9] == "toolResults" && FIELDS[10] == "opaqueReasoning"
    ensures FIELDS[11] == "opaqueMemory" && FIELDS[12] == "incomplete"
  {
  }
}
