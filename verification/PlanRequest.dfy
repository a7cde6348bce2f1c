/** What the memo of dag schedules is asked, and the key it is asked under
    (packages/agent/src/agent-loop.ts:888-917). */
module PlanRequest {
  import opened Sequences
  import opened Wrappers
  import opened Claims
  import opened DagScheduler
  import opened DagProperties
  import opened PlanKey
  import Resolver
  import Text
  import Waves

  // ----- JSON values and their text, as JSON.stringify writes them

  predicate IsNumberChar(c: char) {
    '0' <= c <= '9' || c == '-' || c == '+' || c == '.' || c == 'e'
  }

  // A finite number as it is printed.
  type NumberText = s: string | s != "" && forall c | c in s :: IsNumberChar(c) witness "0"

  datatype Json = Null | Bool(b: bool) | Number(text: NumberText) | Str(s: string) | Arr(items: seq<Json>) | Obj(fields: seq<Field>)

  datatype Field = Field(name: string, value: Json)

  function Parts(v: Json): nat {
    match v
    case Arr(items) => |items| + 1
    case Obj(fields) => |fields| + 1
    case _ => 0
  }

  // The text of a value with what follows it.
  function TextOf(v: Json, tail: string): string
    decreases v, Parts(v)
  {
    match v
    case Null => "null" + tail
    case Bool(b) => if b then "true" + tail else "false" + tail
    case Number(text) => text + tail
    case Str(s) => Quote(s) + tail
    case Arr(_) => "[" + ItemsText(v, 0, tail)
    case Obj(_) => "{" + FieldsText(v, 0, tail)
  }

  // The items from the k-th on, with the closing bracket.
  function ItemsText(v: Json, k: nat, tail: string): string
    requires v.Arr? && k <= |v.items|
    decreases v, |v.items| - k
  {
    if k == |v.items| then "]" + tail
    else
      var item := TextOf(v.items[k], ItemsText(v, k + 1, tail));
      if k == 0 then item else "," + item
  }

  function FieldsText(v: Json, k: nat, tail: string): string
    requires v.Obj? && k <= |v.fields|
    decreases v, |v.fields| - k
  {
    if k == |v.fields| then "}" + tail
    else
      var field := Quote(v.fields[k].name) + (":" + TextOf(v.fields[k].value, FieldsText(v, k + 1, tail)));
      if k == 0 then field else "," + field
  }

  function Stringify(v: Json): string {
    TextOf(v, "")
  }

  // What may follow a value: nothing, a comma or a closing bracket.
  predicate Ends(x: string) {
    x == "" || x[0] == ',' || x[0] == ']' || x[0] == '}'
  }

  predicate Begins(v: Json, c: char) {
    match v
    case Null => c == 'n'
    case Bool(b) => c == (if b then 't' else 'f')
    case Number(_) => IsNumberChar(c)
    case Str(_) => c == '"'
    case Arr(_) => c == '['
    case Obj(_) => c == '{'
  }

  lemma Beginning(v: Json, tail: string)
    ensures TextOf(v, tail) != "" && Begins(v, TextOf(v, tail)[0])
  {
    if v.Number? {
      assert v.text[0] in v.text;
    }
  }

  lemma AfterShorter(s: NumberText, t: NumberText, x: string, y: string)
    requires s + x == t + y && |s| < |t|
    ensures x != "" && IsNumberChar(x[0])
  {
    assert (t + y)[|s|] == t[|s|] && t[|s|] in t;
    assert (s + x)[|s|] == x[0];
  }

  lemma NumberPrefixFree(s: NumberText, t: NumberText, x: string, y: string)
    requires s + x == t + y && Ends(x) && Ends(y)
    ensures s == t && x == y
  {
    if |s| < |t| {
      AfterShorter(s, t, x, y);
    } else if |t| < |s| {
      AfterShorter(t, s, y, x);
    } else {
      assert (s + x)[..|s|] == s && (t + y)[..|s|] == t;
      Cancel(s, x, y);
    }
  }

  // Equal texts come from equal values, whatever follows.
  lemma {:induction false} TextPrefixFree(a: Json, b: Json, x: string, y: string)
    requires TextOf(a, x) == TextOf(b, y) && Ends(x) && Ends(y)
    ensures a == b && x == y
    decreases a, Parts(a)
  {
    Beginning(a, x);
    Beginning(b, y);
    match a
    case Null => Cancel("null", x, y);
    case Bool(bit) => Cancel(if bit then "true" else "false", x, y);
    case Number(text) => NumberPrefixFree(text, b.text, x, y);
    case Str(s) => QuotePrefixFree(s, b.s, x, y);
    case Arr(items) =>
      Cancel("[", ItemsText(a, 0, x), ItemsText(b, 0, y));
      ItemsPrefixFree(a, b, 0, x, y);
      assert items[0..] == items && b.items[0..] == b.items;
    case Obj(fields) =>
      Cancel("{", FieldsText(a, 0, x), FieldsText(b, 0, y));
      FieldsPrefixFree(a, b, 0, x, y);
      assert fields[0..] == fields && b.fields[0..] == b.fields;
  }

  lemma ItemsBeginning(v: Json, k: nat, tail: string)
    requires v.Arr? && k <= |v.items|
    ensures var t := ItemsText(v, k, tail); t != "" && (t[0] == ']' <==> k == |v.items|)
    ensures k > 0 ==> Ends(ItemsText(v, k, tail))
  {
    if k < |v.items| {
      Beginning(v.items[k], ItemsText(v, k + 1, tail));
    }
  }

  lemma {:induction false} ItemsPrefixFree(a: Json, b: Json, k: nat, x: string, y: string)
    requires a.Arr? && b.Arr? && k <= |a.items| && k <= |b.items|
    requires ItemsText(a, k, x) == ItemsText(b, k, y) && Ends(x) && Ends(y)
    ensures a.items[k..] == b.items[k..] && x == y
    decreases a, |a.items| - k
  {
    ItemsBeginning(a, k, x);
    ItemsBeginning(b, k, y);
    if k == |a.items| {
      Cancel("]", x, y);
    } else {
      var restA, restB := ItemsText(a, k + 1, x), ItemsText(b, k + 1, y);
      if k > 0 {
        Cancel(",", TextOf(a.items[k], restA), TextOf(b.items[k], restB));
      }
      ItemsBeginning(a, k + 1, x);
      ItemsBeginning(b, k + 1, y);
      TextPrefixFree(a.items[k], b.items[k], restA, restB);
      ItemsPrefixFree(a, b, k + 1, x, y);
      assert a.items[k..] == [a.items[k]] + a.items[k + 1..] && b.items[k..] == [b.items[k]] + b.items[k + 1..];
    }
  }

  lemma FieldsBeginning(v: Json, k: nat, tail: string)
    requires v.Obj? && k <= |v.fields|
    ensures var t := FieldsText(v, k, tail); t != "" && (t[0] == '}' <==> k == |v.fields|)
    ensures k > 0 ==> Ends(FieldsText(v, k, tail))
  {
  }

  lemma {:induction false} FieldsPrefixFree(a: Json, b: Json, k: nat, x: string, y: string)
    requires a.Obj? && b.Obj? && k <= |a.fields| && k <= |b.fields|
    requires FieldsText(a, k, x) == FieldsText(b, k, y) && Ends(x) && Ends(y)
    ensures a.fields[k..] == b.fields[k..] && x == y
    decreases a, |a.fields| - k
  {
    FieldsBeginning(a, k, x);
    FieldsBeginning(b, k, y);
    if k == |a.fields| {
      Cancel("}", x, y);
    } else {
      var f, g := a.fields[k], b.fields[k];
      var restA, restB := FieldsText(a, k + 1, x), FieldsText(b, k + 1, y);
      var valueA, valueB := ":" + TextOf(f.value, restA), ":" + TextOf(g.value, restB);
      if k > 0 {
        Cancel(",", Quote(f.name) + valueA, Quote(g.name) + valueB);
      }
      QuotePrefixFree(f.name, g.name, valueA, valueB);
      Cancel(":", TextOf(f.value, restA), TextOf(g.value, restB));
      FieldsBeginning(a, k + 1, x);
      FieldsBeginning(b, k + 1, y);
      TextPrefixFree(f.value, g.value, restA, restB);
      FieldsPrefixFree(a, b, k + 1, x, y);
      assert a.fields[k..] == [f] + a.fields[k + 1..] && b.fields[k..] == [g] + b.fields[k + 1..];
    }
  }

  lemma StringifyInjective(a: Json, b: Json)
    ensures Stringify(a) == Stringify(b) <==> a == b
  {
    if Stringify(a) == Stringify(b) {
      TextPrefixFree(a, b, "", "");
    }
  }

  // ----- Requests

  datatype Call = Call(id: Option<string>, name: string, arguments: Option<Json>)

  datatype MaxConcurrency = Unset | NonFiniteNumber | Finite(text: NumberText)

  datatype PolicyEntry = PolicyEntry(name: string, policy: Waves.Policy)

  // The entries of a policy map in insertion order.
  type PolicyTable = e: seq<PolicyEntry> | OneEach(e) witness []

  predicate OneEach(entries: seq<PolicyEntry>) {
    forall i, j | 0 <= i < j < |entries| :: entries[i].name != entries[j].name
  }

  datatype Options = Options(
    cwd: string, policies: PolicyTable, tools: seq<Resolver.RegisteredTool>, strict: bool,
    maxConcurrency: MaxConcurrency, resourceKeyResolver: Option<string -> Resolver.Answer>)

  datatype Request = Request(calls: seq<Call>, options: Options)

  // ----- The key

  function InsertEntry(entry: PolicyEntry, sorted: seq<PolicyEntry>): seq<PolicyEntry> {
    if sorted == [] || CompareStrings(entry.name, sorted[0].name) <= 0 then [entry] + sorted
    else [sorted[0]] + InsertEntry(entry, sorted[1..])
  }

  function SortEntries(entries: seq<PolicyEntry>): seq<PolicyEntry> {
    if entries == [] then [] else InsertEntry(entries[0], SortEntries(entries[1..]))
  }

  function ModeName(mode: Option<Waves.Policy>): string {
    match mode
    case None => ""
    case Some(Sequential) => "sequential"
    case Some(Parallel) => "parallel"
  }

  function ArgumentsValue(arguments: Option<Json>): Json {
    if arguments.None? then Null else arguments.value
  }

  function CallValue(call: Call): Json {
    Arr([Str(call.name), ArgumentsValue(call.arguments)])
  }

  function CapValue(cap: MaxConcurrency): Json {
    if cap.Finite? then Number(cap.text) else Null
  }

  function PolicyValue(entry: PolicyEntry): Json {
    Arr([Str(entry.name), Str(ModeName(Some(entry.policy)))])
  }

  function ToolValue(tool: Resolver.RegisteredTool): Json {
    Arr([Str(tool.name), Str(ModeName(tool.executionMode)), Str(if tool.customClaims then "1" else "0")])
  }

  function Values<T>(f: T -> Json, s: seq<T>): (r: seq<Json>)
    ensures |r| == |s| && forall i | 0 <= i < |s| :: r[i] == f(s[i])
  {
    seq(|s|, i requires 0 <= i < |s| => f(s[i]))
  }

  function KeyValue(r: Request): Json {
    Arr([Arr(Values(CallValue, r.calls)), Str(r.options.cwd), Bool(r.options.strict), CapValue(r.options.maxConcurrency),
         Arr(Values(PolicyValue, SortEntries(r.options.policies))), Arr(Values(ToolValue, r.options.tools))])
  }

  // dagScheduleCacheKey
  function Key(r: Request): string {
    Stringify(KeyValue(r))
  }

  function PolicyMap(entries: PolicyTable): map<string, Waves.Policy> {
    map i | 0 <= i < |entries| :: entries[i].name := entries[i].policy
  }

  // The same names and arguments, whatever the ids; a cap that is no finite number is no cap.
  ghost predicate SameContent(a: Request, b: Request) {
    && SameCalls(a.calls, b.calls)
    && a.options.cwd == b.options.cwd && a.options.strict == b.options.strict && a.options.tools == b.options.tools
    && CapValue(a.options.maxConcurrency) == CapValue(b.options.maxConcurrency)
    && PolicyMap(a.options.policies) == PolicyMap(b.options.policies)
  }

  ghost predicate SameCalls(a: seq<Call>, b: seq<Call>) {
    && |a| == |b|
    && forall i | 0 <= i < |a| :: a[i].name == b[i].name && ArgumentsValue(a[i].arguments) == ArgumentsValue(b[i].arguments)
  }

  // ----- The order of the policies

  function NameOrder(): (PolicyEntry, PolicyEntry) -> bool {
    (x: PolicyEntry, y: PolicyEntry) => CompareStrings(x.name, y.name) <= 0
  }

  lemma {:induction false} InsertEntryFacts(entry: PolicyEntry, sorted: seq<PolicyEntry>)
    requires SortedBy(NameOrder(), sorted)
    ensures SortedBy(NameOrder(), InsertEntry(entry, sorted))
    ensures multiset(InsertEntry(entry, sorted)) == multiset([entry]) + multiset(sorted)
  {
    if sorted != [] {
      var rest := sorted[1..];
      CompareStringsOrder(entry.name, sorted[0].name, entry.name);
      assert sorted == [sorted[0]] + rest;
      if CompareStrings(entry.name, sorted[0].name) <= 0 {
        forall j | 0 < j < |sorted|
          ensures CompareStrings(entry.name, sorted[j].name) <= 0
        {
          assert NameOrder()(sorted[0], sorted[j]);
          CompareStringsOrder(entry.name, sorted[0].name, sorted[j].name);
        }
      } else {
        InsertEntryFacts(entry, rest);
        var inserted := InsertEntry(entry, rest);
        forall j | 0 <= j < |inserted|
          ensures NameOrder()(sorted[0], inserted[j])
        {
          assert inserted[j] in multiset(inserted);
          if inserted[j] != entry {
            assert inserted[j] in rest;
          }
        }
      }
    }
  }

  lemma {:induction false} SortEntriesFacts(entries: seq<PolicyEntry>)
    ensures SortedBy(NameOrder(), SortEntries(entries))
    ensures multiset(SortEntries(entries)) == multiset(entries)
  {
    if entries != [] {
      SortEntriesFacts(entries[1..]);
      InsertEntryFacts(entries[0], SortEntries(entries[1..]));
      assert entries == [entries[0]] + entries[1..];
    }
  }

  lemma FirstOnce(entries: seq<PolicyEntry>)
    requires OneEach(entries) && entries != []
    ensures entries[0] !in entries[1..]
  {
    var rest := entries[1..];
    forall j | 0 <= j < |rest|
      ensures rest[j] != entries[0]
    {
      assert entries[0].name != entries[j + 1].name;
    }
  }

  lemma {:induction false} OnceEach(entries: seq<PolicyEntry>, e: PolicyEntry)
    requires OneEach(entries)
    ensures multiset(entries)[e] == if e in entries then 1 else 0
  {
    if entries != [] {
      var rest := entries[1..];
      OnceEach(rest, e);
      assert entries == [entries[0]] + rest;
      FirstOnce(entries);
    }
  }

  lemma EntryInMap(entries: PolicyTable, e: PolicyEntry)
    ensures e in entries <==> e.name in PolicyMap(entries) && PolicyMap(entries)[e.name] == e.policy
  {
    if e in entries {
      var i :| 0 <= i < |entries| && entries[i] == e;
      assert e.name in PolicyMap(entries);
    }
    if e.name in PolicyMap(entries) && PolicyMap(entries)[e.name] == e.policy {
      var i :| 0 <= i < |entries| && entries[i].name == e.name;
      assert entries[i] == e;
    }
  }

  // Sorting forgets the insertion order of a policy map and nothing else.
  lemma SortedPoliciesExact(a: PolicyTable, b: PolicyTable)
    ensures SortEntries(a) == SortEntries(b) <==> PolicyMap(a) == PolicyMap(b)
  {
    if SortEntries(a) == SortEntries(b) {
      SortEntriesFacts(a);
      SortEntriesFacts(b);
      SameEntriesSameMap(a, b);
    }
    if PolicyMap(a) == PolicyMap(b) {
      SameMapSameEntries(a, b);
      SameSorting(a, b);
    }
  }

  lemma SameEntriesSameMap(a: PolicyTable, b: PolicyTable)
    requires multiset(a) == multiset(b)
    ensures PolicyMap(a) == PolicyMap(b)
  {
    forall name
      ensures name in PolicyMap(a) <==> name in PolicyMap(b)
      ensures name in PolicyMap(a) ==> PolicyMap(a)[name] == PolicyMap(b)[name]
    {
      EntriesAgree(a, b, PolicyEntry(name, Waves.Sequential));
      EntriesAgree(a, b, PolicyEntry(name, Waves.Parallel));
    }
  }

  lemma SameMapSameEntries(a: PolicyTable, b: PolicyTable)
    requires PolicyMap(a) == PolicyMap(b)
    ensures multiset(a) == multiset(b)
  {
    forall e
      ensures multiset(a)[e] == multiset(b)[e]
    {
      EntryInMap(a, e);
      EntryInMap(b, e);
      OnceEach(a, e);
      OnceEach(b, e);
    }
  }

  lemma EntriesAgree(a: PolicyTable, b: PolicyTable, e: PolicyEntry)
    requires multiset(a) == multiset(b)
    ensures e.name in PolicyMap(a) && PolicyMap(a)[e.name] == e.policy <==> e.name in PolicyMap(b) && PolicyMap(b)[e.name] == e.policy
  {
    EntryInMap(a, e);
    EntryInMap(b, e);
    assert e in a <==> e in multiset(a);
    assert e in b <==> e in multiset(b);
  }

  lemma SameSorting(a: PolicyTable, b: PolicyTable)
    requires multiset(a) == multiset(b)
    ensures SortEntries(a) == SortEntries(b)
  {
    SortEntriesFacts(a);
    SortEntriesFacts(b);
    var c := SortEntries(a);
    forall x, y | x in c && y in c && NameOrder()(x, y) && NameOrder()(y, x)
      ensures x == y
    {
      CompareStringsOrder(x.name, y.name, x.name);
      assert x in multiset(a) && y in multiset(a);
      EntryInMap(a, x);
      EntryInMap(a, y);
    }
    SortedUnique(NameOrder(), c, SortEntries(b));
  }

  // ----- The key says exactly what the request asks

  lemma SameValues<T>(f: T -> Json, s: seq<T>, t: seq<T>)
    requires forall x, y :: f(x) == f(y) ==> x == y
    ensures Values(f, s) == Values(f, t) <==> s == t
  {
    if Values(f, s) == Values(f, t) {
      forall i | 0 <= i < |s|
        ensures s[i] == t[i]
      {
        assert Values(f, s)[i] == Values(f, t)[i];
      }
    }
  }

  lemma ModeNames(a: Option<Waves.Policy>, b: Option<Waves.Policy>)
    ensures ModeName(a) == ModeName(b) <==> a == b
  {
    assert "sequential"[0] == 's' && "parallel"[0] == 'p';
  }

  lemma ToolValueInjective(x: Resolver.RegisteredTool, y: Resolver.RegisteredTool)
    requires ToolValue(x) == ToolValue(y)
    ensures x == y
  {
    assert ToolValue(x).items[0] == ToolValue(y).items[0] && ToolValue(x).items[1] == ToolValue(y).items[1];
    assert ToolValue(x).items[2] == ToolValue(y).items[2];
    assert "1"[0] != "0"[0];
    ModeNames(x.executionMode, y.executionMode);
  }

  lemma PolicyValueInjective(x: PolicyEntry, y: PolicyEntry)
    requires PolicyValue(x) == PolicyValue(y)
    ensures x == y
  {
    assert PolicyValue(x).items[0] == PolicyValue(y).items[0] && PolicyValue(x).items[1] == PolicyValue(y).items[1];
    ModeNames(Some(x.policy), Some(y.policy));
  }

  lemma CallValues(a: seq<Call>, b: seq<Call>)
    ensures Values(CallValue, a) == Values(CallValue, b) <==> SameCalls(a, b)
  {
    forall x: Call, y: Call
      ensures CallValue(x) == CallValue(y) <==> x.name == y.name && ArgumentsValue(x.arguments) == ArgumentsValue(y.arguments)
    {
      var p, q := CallValue(x).items, CallValue(y).items;
      assert p == q ==> p[0] == q[0] && p[1] == q[1];
    }
    if Values(CallValue, a) == Values(CallValue, b) {
      forall i | 0 <= i < |a|
        ensures a[i].name == b[i].name && ArgumentsValue(a[i].arguments) == ArgumentsValue(b[i].arguments)
      {
        assert Values(CallValue, a)[i] == Values(CallValue, b)[i];
      }
    }
    if SameCalls(a, b) {
      forall i | 0 <= i < |a|
        ensures Values(CallValue, a)[i] == Values(CallValue, b)[i]
      {
      }
    }
  }

  // Two requests share a key exactly when they ask the same apart from the ids of the calls.
  lemma KeyExact(a: Request, b: Request)
    ensures Key(a) == Key(b) <==> SameContent(a, b)
  {
    StringifyInjective(KeyValue(a), KeyValue(b));
    CallValues(a.calls, b.calls);
    SortedPoliciesExact(a.options.policies, b.options.policies);
    var sa, sb := SortEntries(a.options.policies), SortEntries(b.options.policies);
    forall x, y | PolicyValue(x) == PolicyValue(y)
      ensures x == y
    {
      PolicyValueInjective(x, y);
    }
    SameValues(PolicyValue, sa, sb);
    forall x, y | ToolValue(x) == ToolValue(y)
      ensures x == y
    {
      ToolValueInjective(x, y);
    }
    SameValues(ToolValue, a.options.tools, b.options.tools);
    if KeyValue(a) == KeyValue(b) {
      ItemsAgree(KeyValue(a), KeyValue(b));
    }
  }

  lemma ItemsAgree(p: Json, q: Json)
    requires p.Arr? && p == q
    ensures |p.items| == |q.items| && forall i | 0 <= i < |p.items| :: p.items[i] == q.items[i]
  {
  }

  // ----- The plan of a request

  datatype PlanValue = PlanValue(levels: seq<seq<nat>>, planKey: string)

  // What the extension of a tool answers: tool name, arguments, working directory, id of the call.
  type Answers = (string, seq<Field>, string, string) -> Resolver.CustomValue

  function FieldNamed(fields: seq<Field>, name: string): Option<Json> {
    if fields == [] then None
    else if fields[0].name == name then Some(fields[0].value)
    else FieldNamed(fields[1..], name)
  }

  function ShapeOf(call: Call): Waves.ToolCallShape {
    var arguments :=
      match call.arguments
      case Some(Obj(fields)) =>
        (match FieldNamed(fields, "path")
         case Some(Str(s)) => Waves.Object(Some(s))
         case _ => Waves.Object(None))
      case _ => Waves.NotAnObject;
    Waves.ToolCallShape(call.name, arguments)
  }

  // What scheduling looks at of a call: its name, and the text of the first field named "path".
  lemma {:induction false} ShapeReads(call: Call, path: string)
    ensures ShapeOf(call).name == call.name
    ensures ShapeOf(call).arguments.Object? <==> call.arguments.Some? && call.arguments.value.Obj?
    ensures ShapeOf(call).arguments == Waves.Object(Some(path)) <==>
            && call.arguments.Some? && call.arguments.value.Obj?
            && exists k :: FirstField(call.arguments.value.fields, "path", k) && call.arguments.value.fields[k].value == Str(path)
  {
    if call.arguments.Some? && call.arguments.value.Obj? {
      FieldIsFirst(call.arguments.value.fields, "path", Str(path));
    }
  }

  ghost predicate FirstField(fields: seq<Field>, name: string, k: int) {
    0 <= k < |fields| && fields[k].name == name && forall j | 0 <= j < k :: fields[j].name != name
  }

  lemma {:induction false} FieldIsFirst(fields: seq<Field>, name: string, value: Json)
    ensures FieldNamed(fields, name) == Some(value) <==> exists k :: FirstField(fields, name, k) && fields[k].value == value
  {
    if fields != [] {
      var rest := fields[1..];
      FieldIsFirst(rest, name, value);
      if fields[0].name == name {
        assert FirstField(fields, name, 0);
      } else {
        if k :| FirstField(rest, name, k) && rest[k].value == value {
          assert FirstField(fields, name, k + 1);
        }
        if k :| FirstField(fields, name, k) && fields[k].value == value {
          assert forall j | 0 <= j < k - 1 :: rest[j] == fields[j + 1];
          assert FirstField(rest, name, k - 1);
        }
      }
    }
  }

  // The answer of the call's extension; one without an argument object is never asked for.
  function AnswerTo(answers: Answers, call: Call, cwd: string): Resolver.CustomValue {
    match call.arguments
    case Some(Obj(fields)) => answers(call.name, fields, cwd, if call.id.Some? then call.id.value else "")
    case _ => Resolver.ResolverThrew
  }

  function ResolverOptions(o: Options): Resolver.Options {
    Resolver.Options(o.cwd, PolicyMap(o.policies), o.tools, o.strict, o.resourceKeyResolver)
  }

  // Calls are resolved under the request's own directory, tools, strictness and platform resolver, and
  // under the policies its table holds.
  lemma ResolvedUnder(o: Options, name: string, policy: Waves.Policy)
    ensures var r := ResolverOptions(o);
            && r.cwd == o.cwd && r.registeredTools == o.tools && r.strictExtensionClaims == o.strict
            && r.resourceKeyResolver == o.resourceKeyResolver
            && ((name in r.toolPolicies && r.toolPolicies[name] == policy) <==> PolicyEntry(name, policy) in o.policies)
  {
    if PolicyEntry(name, policy) in o.policies {
      var i :| 0 <= i < |o.policies| && o.policies[i] == PolicyEntry(name, policy);
      assert o.policies[i].name == name;
    }
  }

  function ResolutionOf(answers: Answers, call: Call, o: Options): Resolution {
    Resolver.ResolveToolClaimsForCall(ShapeOf(call), AnswerTo(answers, call, o.cwd), ResolverOptions(o))
  }

  function ResolutionsOf(answers: Answers, r: Request): (rs: seq<Resolution>)
    ensures |rs| == |r.calls| && forall i | 0 <= i < |rs| :: rs[i] == ResolutionOf(answers, r.calls[i], r.options)
  {
    seq(|r.calls|, i requires 0 <= i < |r.calls| => ResolutionOf(answers, r.calls[i], r.options))
  }

  function ShapesOf(r: Request): (s: seq<Waves.ToolCallShape>)
    ensures |s| == |r.calls| && forall i | 0 <= i < |s| :: s[i] == ShapeOf(r.calls[i])
  {
    seq(|r.calls|, i requires 0 <= i < |r.calls| => ShapeOf(r.calls[i]))
  }

  function AnswersTo(answers: Answers, r: Request): (s: seq<Resolver.CustomValue>)
    ensures |s| == |r.calls| && forall i | 0 <= i < |s| :: s[i] == AnswerTo(answers, r.calls[i], r.options.cwd)
  {
    seq(|r.calls|, i requires 0 <= i < |r.calls| => AnswerTo(answers, r.calls[i], r.options.cwd))
  }

  // The batch as the resolver resolves it.
  lemma ResolvesBatch(answers: Answers, r: Request)
    ensures ResolutionsOf(answers, r) == Resolver.ResolveBatch(ShapesOf(r), AnswersTo(answers, r), ResolverOptions(r.options))
  {
  }

  // ----- The number a text stands for

  function Digit(c: char): real {
    (c as int - '0' as int) as real
  }

  function Digits(s: string, value: real): (real, string) {
    if s == "" || !('0' <= s[0] <= '9') then (value, s)
    else Digits(s[1..], 10.0 * value + Digit(s[0]))
  }

  function Over(count: real, places: nat): real {
    count / Power10(places)
  }

  // What follows the point: its digits count one tenth, one hundredth and so on.
  function Decimals(s: string, whole: real): (real, string) {
    AfterPoint(Digits(s, 0.0), |s|, whole)
  }

  // The whole with the count of the digits read, of which there are as many as the rest is shorter.
  function AfterPoint(read: (real, string), length: nat, whole: real): (real, string) {
    (whole + Over(read.0, if |read.1| <= length then length - |read.1| else 0), read.1)
  }

  function Power10(n: nat): (r: real)
    ensures r >= 1.0
  {
    if n == 0 then 1.0 else 10.0 * Power10(n - 1)
  }

  function Scaled(value: real, exponent: string): real {
    if |exponent| < 2 || exponent[0] != 'e' then value
    else
      var n := Digits(exponent[2..], 0.0).0.Floor;
      if n < 0 then value else if exponent[1] == '-' then value / Power10(n) else value * Power10(n)
  }

  // The digits before and behind the point, and what is left of the text.
  function Unscaled(text: string): (real, string) {
    BehindPoint(Digits(text, 0.0))
  }

  function BehindPoint(read: (real, string)): (real, string) {
    if read.1 != "" && read.1[0] == '.' then Decimals(read.1[1..], read.0) else read
  }

  function NumberOf(text: string): real {
    var negative := text != "" && text[0] == '-';
    var read := Unscaled(if negative then text[1..] else text);
    var magnitude := Scaled(read.0, read.1);
    if negative then -magnitude else magnitude
  }

  function CapOf(cap: MaxConcurrency): Cap {
    match cap
    case Unset => Absent
    case NonFiniteNumber => NonFinite
    case Finite(text) => Width(NumberOf(text))
  }

  // scheduleDagLevels
  function PlanOf(answers: Answers, r: Request): PlanValue {
    var rs := ResolutionsOf(answers, r);
    PlanValue(CapLevels(Levels(rs), CapOf(r.options.maxConcurrency)), EncodeSequence(CanonicalClaims(rs)))
  }

  // ----- When the key determines the plan

  // A tool whose extension is asked for claims that count.
  predicate AsksExtension(name: string, o: Options) {
    var tool := Resolver.FindRegistered(name, o.tools);
    tool.Some? && tool.value.customClaims && !Resolver.ForcedAlone(name, ResolverOptions(o))
  }

  // The claims an answer comes to, in canonical order.
  function AnswerClaims(answer: Resolver.CustomValue, o: Options): Option<seq<Claim>> {
    CanonicalCall(Resolver.NormalizedClaims(answer, ResolverOptions(o)))
  }

  ghost predicate SameAnswer(answers: Answers, o: Options, name: string, fields: seq<Field>, x: string, y: string) {
    AnswerClaims(answers(name, fields, o.cwd, x), o) == AnswerClaims(answers(name, fields, o.cwd, y), o)
  }

  // No extension that is asked claims something else for another call id.
  ghost predicate IgnoresIds(answers: Answers, o: Options) {
    forall name, fields, x, y | AsksExtension(name, o) :: SameAnswer(answers, o, name, fields, x, y)
  }

  lemma SameResolverOptions(a: Request, b: Request)
    requires SameContent(a, b) && a.options.resourceKeyResolver == b.options.resourceKeyResolver
    ensures ResolverOptions(a.options) == ResolverOptions(b.options)
  {
  }

  lemma SameCallClaims(answers: Answers, a: Call, b: Call, o: Options, p: Options)
    requires a.name == b.name && ArgumentsValue(a.arguments) == ArgumentsValue(b.arguments)
    requires ResolverOptions(o) == ResolverOptions(p) && IgnoresIds(answers, o)
    ensures CanonicalCall(ResolutionOf(answers, a, o)) == CanonicalCall(ResolutionOf(answers, b, p))
  {
    var ro := ResolverOptions(o);
    assert ShapeOf(a) == ShapeOf(b) && o.cwd == p.cwd && o.tools == p.tools;
    if AsksExtension(a.name, o) && a.arguments.Some? && a.arguments.value.Obj? {
      var x, y := if a.id.Some? then a.id.value else "", if b.id.Some? then b.id.value else "";
      assert SameAnswer(answers, o, a.name, a.arguments.value.fields, x, y);
    }
  }

  lemma {:induction false} CapsByWidth(levels: seq<seq<nat>>, c: Cap, d: Cap)
    requires IntegerCap(c) == IntegerCap(d)
    ensures CapLevels(levels, c) == CapLevels(levels, d)
  {
    if levels != [] {
      CapsByWidth(levels[1..], c, d);
    }
  }

  // An unset cap and one that is no finite number are the same cap.
  lemma SameCap(c: MaxConcurrency, d: MaxConcurrency)
    requires CapValue(c) == CapValue(d)
    ensures IntegerCap(CapOf(c)) == IntegerCap(CapOf(d))
  {
  }

  // Plans are equal exactly when the canonical claims are, given the same cap.
  lemma PlansEqualIff(answers: Answers, a: Request, b: Request)
    requires CapValue(a.options.maxConcurrency) == CapValue(b.options.maxConcurrency)
    ensures PlanOf(answers, a) == PlanOf(answers, b) <==>
            CanonicalClaims(ResolutionsOf(answers, a)) == CanonicalClaims(ResolutionsOf(answers, b))
  {
    var rs, qs := ResolutionsOf(answers, a), ResolutionsOf(answers, b);
    if CanonicalClaims(rs) == CanonicalClaims(qs) {
      CanonicalDecidesLevels(rs, qs);
      SameCap(a.options.maxConcurrency, b.options.maxConcurrency);
      CapsByWidth(Levels(rs), CapOf(a.options.maxConcurrency), CapOf(b.options.maxConcurrency));
    }
    if PlanOf(answers, a) == PlanOf(answers, b) {
      SequenceInjective(CanonicalClaims(rs), CanonicalClaims(qs));
    }
  }

  // Requests with one key have one plan when no extension looks at the ids.
  lemma KeyDeterminesPlan(answers: Answers, a: Request, b: Request)
    requires Key(a) == Key(b) && a.options.resourceKeyResolver == b.options.resourceKeyResolver && IgnoresIds(answers, a.options)
    ensures PlanOf(answers, a) == PlanOf(answers, b)
  {
    KeyExact(a, b);
    SameResolverOptions(a, b);
    forall i | 0 <= i < |a.calls|
      ensures CanonicalClaims(ResolutionsOf(answers, a))[i] == CanonicalClaims(ResolutionsOf(answers, b))[i]
    {
      SameCallClaims(answers, a.calls[i], b.calls[i], a.options, b.options);
    }
    assert CanonicalClaims(ResolutionsOf(answers, a)) == CanonicalClaims(ResolutionsOf(answers, b));
    PlansEqualIff(answers, a, b);
  }

  // The key of a batch always determines its plan exactly when no extension looks at the ids.
  lemma KeyDeterminesPlanIff(answers: Answers, o: Options)
    ensures (forall a, b: seq<Call> | Key(Request(a, o)) == Key(Request(b, o)) ::
               PlanOf(answers, Request(a, o)) == PlanOf(answers, Request(b, o))) <==>
            IgnoresIds(answers, o)
  {
    if forall a, b: seq<Call> | Key(Request(a, o)) == Key(Request(b, o)) ::
         PlanOf(answers, Request(a, o)) == PlanOf(answers, Request(b, o)) {
      forall name, fields, x, y | AsksExtension(name, o)
        ensures SameAnswer(answers, o, name, fields, x, y)
      {
        SamePlanSameAnswer(answers, o, name, fields, x, y);
      }
    }
    if IgnoresIds(answers, o) {
      forall a, b: seq<Call> | Key(Request(a, o)) == Key(Request(b, o))
        ensures PlanOf(answers, Request(a, o)) == PlanOf(answers, Request(b, o))
      {
        KeyDeterminesPlan(answers, Request(a, o), Request(b, o));
      }
    }
  }

  function Alone(id: string, name: string, fields: seq<Field>): Call {
    Call(Some(id), name, Some(Obj(fields)))
  }

  lemma SamePlanSameAnswer(answers: Answers, o: Options, name: string, fields: seq<Field>, x: string, y: string)
    requires AsksExtension(name, o)
    ensures var a, b := Request([Alone(x, name, fields)], o), Request([Alone(y, name, fields)], o);
            Key(a) == Key(b) && (PlanOf(answers, a) == PlanOf(answers, b) ==> SameAnswer(answers, o, name, fields, x, y))
  {
    var a, b := Request([Alone(x, name, fields)], o), Request([Alone(y, name, fields)], o);
    KeyExact(a, b);
    PlansEqualIff(answers, a, b);
    AloneClaims(answers, o, name, fields, x);
    AloneClaims(answers, o, name, fields, y);
  }

  // The claims of a lone call are those its extension answers.
  lemma AloneClaims(answers: Answers, o: Options, name: string, fields: seq<Field>, id: string)
    requires AsksExtension(name, o)
    ensures CanonicalClaims(ResolutionsOf(answers, Request([Alone(id, name, fields)], o))) ==
            [AnswerClaims(answers(name, fields, o.cwd, id), o)]
  {
    var rs := ResolutionsOf(answers, Request([Alone(id, name, fields)], o));
    assert rs[0] == ResolutionOf(answers, Alone(id, name, fields), o);
    assert CanonicalClaims(rs)[0] == CanonicalCall(rs[0]);
  }

  // ----- An extension that looks at the ids

  // Claims the session named by the call's id, calls 3 and 4 sharing one.
  function SessionById(): Answers {
    (name: string, fields: seq<Field>, cwd: string, id: string) =>
      Resolver.Candidates([Resolver.Candidate("session", Some(if id == "4" then "3" else id), "write")])
  }

  function SessionOptions(): Options {
    Options("/", [], [Resolver.RegisteredTool("t", None, true)], false, Unset, None)
  }

  function PairOf(x: string, y: string): Request {
    Request([Alone(x, "t", []), Alone(y, "t", [])], SessionOptions())
  }

  lemma SessionResolution(id: string)
    requires !Text.IsBlank(if id == "4" then "3" else id)
    ensures ResolutionOf(SessionById(), Alone(id, "t", []), SessionOptions()) ==
            Claims([NamedClaim(Session, if id == "4" then "3" else id, Write)])
  {
    var ro := ResolverOptions(SessionOptions());
    assert Resolver.FindRegistered("t", ro.registeredTools) == Some(ro.registeredTools[0]);
    assert !Resolver.ForcedAlone("t", ro);
    var c := Resolver.Candidate("session", Some(if id == "4" then "3" else id), "write");
    SessionClaim(c.key.value, ro);
    assert Resolver.AllShareable(Resolver.Candidates([c]), ro);
  }

  lemma SessionClaim(key: string, ro: Resolver.Options)
    requires !Text.IsBlank(key)
    ensures Resolver.ClaimOf(Resolver.Candidate("session", Some(key), "write"), ro) == Some(NamedClaim(Session, key, Write))
  {
    assert "session" != "path" && "write" != "read";
  }

  lemma TwoLevels(r: Resolution, q: Resolution)
    requires r.Claims? && q.Claims? && !RunsAlone(r) && !RunsAlone(q)
    ensures Levels([r, q]) == if ResolutionsConflict(r, q) then [[0], [1]] else [[0, 1]]
  {
    var rs := [r, q];
    var deep := if ResolutionsConflict(r, q) then 1 else 0;
    assert Level(rs, 0) == 0;
    assert LatestConflict(rs, 1, 0) == 0;
    assert Level(rs, 1) == LatestConflict(rs, 1, 1) == deep;
    assert Members(rs, 0, 0) == [] && Members(rs, 0, 1) == [];
    assert Members(rs, 1, 0) == [0] && Members(rs, 1, 1) == [];
    assert LevelCount(rs, 0) == 0 && LevelCount(rs, 1) == 1;
    assert Members(rs, 2, deep) == Members(rs, 1, deep) + [1] && Members(rs, 2, 1 - deep) == Members(rs, 1, 1 - deep);
    assert LevelCount(rs, 2) == deep + 1;
    var levels := Levels(rs);
    assert levels[0] == Members(rs, 2, 0);
    if deep == 1 {
      assert Members(rs, 2, 0) == [0] && Members(rs, 2, 1) == [1];
    } else {
      assert Members(rs, 2, 0) == [0, 1];
    }
    assert levels == if deep == 1 then [Members(rs, 2, 0), Members(rs, 2, 1)] else [Members(rs, 2, 0)];
  }

  lemma SessionsConflict(k: string, l: string)
    ensures var r, q := Claims([NamedClaim(Session, k, Write)]), Claims([NamedClaim(Session, l, Write)]);
            !RunsAlone(r) && !RunsAlone(q) && (ResolutionsConflict(r, q) <==> k == l)
  {
    var c, d := NamedClaim(Session, k, Write), NamedClaim(Session, l, Write);
    assert c in [c] && d in [d];
  }

  lemma SessionLevels(x: string, y: string, k: string, l: string)
    requires (if x == "4" then "3" else x) == k && (if y == "4" then "3" else y) == l
    requires !Text.IsBlank(k) && !Text.IsBlank(l)
    ensures PlanOf(SessionById(), PairOf(x, y)).levels == if k == l then [[0], [1]] else [[0, 1]]
  {
    SessionResolution(x);
    SessionResolution(y);
    SessionsConflict(k, l);
    var r, q := Claims([NamedClaim(Session, k, Write)]), Claims([NamedClaim(Session, l, Write)]);
    TwoLevels(r, q);
    var rs := ResolutionsOf(SessionById(), PairOf(x, y));
    assert rs == [r, q];
    assert IntegerCap(CapOf(Unset)) == None;
  }

  lemma DigitsNotBlank(d: string)
    requires |d| == 1 && '0' <= d[0] <= '9'
    ensures !Text.IsBlank(d)
  {
    assert d[0] in d;
  }

  lemma PairKeys(x: string, y: string, z: string, w: string)
    ensures Key(PairOf(x, y)) == Key(PairOf(z, w))
  {
    KeyExact(PairOf(x, y), PairOf(z, w));
  }

  // The calls of the second pair ask for one session and need a level each, but share the key of a
  // pair that runs side by side.
  lemma StalePlanExample()
    ensures Key(PairOf("1", "2")) == Key(PairOf("3", "4"))
    ensures PlanOf(SessionById(), PairOf("1", "2")).levels == [[0, 1]]
    ensures PlanOf(SessionById(), PairOf("3", "4")).levels == [[0], [1]]
  {
    PairKeys("1", "2", "3", "4");
    DigitsNotBlank("1");
    DigitsNotBlank("2");
    DigitsNotBlank("3");
    assert "1"[0] != "2"[0];
    SessionLevels("1", "2", "1", "2");
    SessionLevels("3", "4", "3", "3");
  }
}
