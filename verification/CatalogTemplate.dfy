/**
 * The one-pass template renderer of the MCP catalog (crates/core/src/mcp_servers.rs), proved against
 * a segmentation of the template into literal text and holes.
 */
module Templates {
  import opened Wrappers
  import opened Text

  /** Literal text, then either the end or a hole and more. */
  datatype Template = End(text: string) | Hole(text: string, hole: string, more: Template)

  const OPEN := "{{"
  const CLOSE := "}}"

  type Values = map<string, string>

  function Source(t: Template): string {
    match t
    case End(text) => text
    case Hole(text, hole, more) => text + OPEN + (hole + CLOSE + Source(more))
  }

  /** `mark` stands nowhere in `s + mark` but at its end. */
  ghost predicate Free(s: string, mark: string) {
    forall i | 0 <= i < |s| :: !(mark <= (s + mark)[i..])
  }

  ghost predicate Canonical(t: Template) {
    match t
    case End(text) => Find(text, OPEN).None?
    case Hole(text, hole, more) => Free(text, OPEN) && Free(hole, CLOSE) && Canonical(more)
  }

  /** Cuts at the first opening mark and the first closing mark after it; none if a hole is left open. */
  function Segment(s: string): Option<Template>
    decreases |s|
  {
    var start := Find(s, OPEN);
    if start.None? then Some(End(s)) else
    var rest := s[start.value + 2..];
    var end := Find(rest, CLOSE);
    if end.None? then None else
    var more := Segment(rest[end.value + 2..]);
    if more.None? then None else Some(Hole(s[..start.value], rest[..end.value], more.value))
  }

  /** Text that is free of a two-letter mark ends where the mark first stands, whatever follows. */
  lemma FreeFind(s: string, mark: string, more: string)
    requires |mark| == 2 && mark[0] == mark[1]
    ensures Free(s, mark) <==> Find(s + mark + more, mark) == Some(|s|)
  {
    var t := s + mark + more;
    assert t[|s|..] == mark + more;
    forall i | 0 <= i < |s| ensures (mark <= t[i..]) == (mark <= (s + mark)[i..]) {
      assert t[i] == (s + mark)[i] && t[i + 1] == (s + mark)[i + 1];
      assert t[i..][0] == t[i] && t[i..][1] == t[i + 1];
      assert (s + mark)[i..][0] == (s + mark)[i] && (s + mark)[i..][1] == (s + mark)[i + 1];
    }
    FindFirst(t, mark);
    if Free(s, mark) {
      FindAt(t, mark, |s|);
    }
  }

  lemma FoundFree(s: string, mark: string)
    requires |mark| == 2 && mark[0] == mark[1] && Find(s, mark).Some?
    ensures var k := Find(s, mark).value; s == s[..k] + mark + s[k + 2..] && Free(s[..k], mark)
  {
    var k := Find(s, mark).value;
    assert mark == s[k..][..2] == s[k..k + 2];
    assert s == s[..k] + mark + s[k + 2..];
    FreeFind(s[..k], mark, s[k + 2..]);
  }

  /** Segmenting loses nothing. */
  lemma {:induction false} SourceOfSegments(s: string)
    requires Segment(s).Some?
    ensures Source(Segment(s).value) == s && Canonical(Segment(s).value)
    decreases |s|
  {
    hide Free, Find;
    var start := Find(s, OPEN);
    if start.Some? {
      FoundFree(s, OPEN);
      var rest := s[start.value + 2..];
      FoundFree(rest, CLOSE);
      SourceOfSegments(rest[Find(rest, CLOSE).value + 2..]);
    }
  }

  lemma CutAt(s: string, mark: string, more: string)
    requires |mark| == 2 && mark[0] == mark[1] && Free(s, mark)
    ensures var t := s + mark + more; Find(t, mark) == Some(|s|) && t[..|s|] == s && t[|s| + 2..] == more
  {
    FreeFind(s, mark, more);
  }

  /** And finds every canonical segmentation: there is exactly one per template. */
  lemma {:induction false} SegmentsOfSource(t: Template)
    requires Canonical(t)
    ensures Segment(Source(t)) == Some(t)
  {
    hide Free, Find;
    if t.Hole? {
      SegmentsOfSource(t.more);
      CutAt(t.text, OPEN, t.hole + CLOSE + Source(t.more));
      CutAt(t.hole, CLOSE, Source(t.more));
    }
  }

  // ----- Filling the holes -----

  function HoleId(hole: string): Option<string> {
    var name := Trim(hole, WhiteSpace);
    if StartsWith(name, "placeholder.") then Some(name[12..])
    else if StartsWith(name, "placeholders.") then Some(name[13..])
    else None
  }

  function HoleValue(hole: string, values: Values): Option<string> {
    var id := HoleId(hole);
    if id.Some? && id.value in values then Some(values[id.value]) else None
  }

  /** The texts and the holes' values in order; the values themselves are never looked into. */
  function Fill(t: Template, values: Values): Option<string> {
    match t
    case End(text) => Some(text)
    case Hole(text, hole, more) =>
      var value, rest := HoleValue(hole, values), Fill(more, values);
      if value.Some? && rest.Some? then Some(text + value.value + rest.value) else None
  }

  function Rendered(s: string, values: Values): Option<string> {
    var t := Segment(s);
    if t.None? then None else Fill(t.value, values)
  }

  lemma RenderedUnfold(s: string, values: Values, start: nat, rest: string)
    requires Find(s, OPEN) == Some(start) && rest == s[start + 2..]
    ensures var end := Find(rest, CLOSE);
            && (end.None? ==> Rendered(s, values).None?)
            && (end.Some? ==>
                  var value, more := HoleValue(rest[..end.value], values), Rendered(rest[end.value + 2..], values);
                  Rendered(s, values) == if value.Some? && more.Some? then Some(s[..start] + value.value + more.value) else None)
  {
    hide HoleValue, Find;
  }

  /** The renderer's loop: copies text up to a mark, replaces the hole, and goes on after it. */
  method RenderCatalogTemplateString(input: string, values: Values) returns (r: Option<string>)
    ensures r == Rendered(input, values)
  {
    hide HoleValue, HoleId, Rendered, Find;
    var out, rest := "", input;
    if Rendered(input, values).Some? {
      assert out + Rendered(input, values).value == Rendered(input, values).value;
    }
    while true
      invariant Rendered(input, values) ==
                (if Rendered(rest, values).Some? then Some(out + Rendered(rest, values).value) else None)
      decreases |rest|
    {
      var start := Find(rest, OPEN);
      if start.None? {
        RenderedPlain(rest, values);
        return Some(out + rest);
      }
      var inside := rest[start.value + 2..];
      RenderedUnfold(rest, values, start.value, inside);
      var end := Find(inside, CLOSE);
      if end.None? {
        return None;
      }
      var value := HoleValue(inside[..end.value], values);
      if value.None? {
        return None;
      }
      ghost var more := Rendered(inside[end.value + 2..], values);
      if more.Some? {
        assert out + (rest[..start.value] + value.value + more.value) == out + rest[..start.value] + value.value + more.value;
      }
      out := out + rest[..start.value] + value.value;
      rest := inside[end.value + 2..];
    }
  }

  lemma RenderedPlain(s: string, values: Values)
    requires Find(s, OPEN).None?
    ensures Rendered(s, values) == Some(s)
  {
  }

  lemma RenderedIsFill(t: Template, values: Values)
    requires Canonical(t)
    ensures Rendered(Source(t), values) == Fill(t, values)
  {
    SegmentsOfSource(t);
  }

  /** Two templates one after the other. */
  function Join(t: Template, u: Template): Template {
    match t
    case Hole(text, hole, more) => Hole(text, hole, Join(more, u))
    case End(text) => if u.End? then End(text + u.text) else Hole(text + u.text, u.hole, u.more)
  }

  lemma {:induction false} SourceOfJoin(t: Template, u: Template)
    ensures Source(Join(t, u)) == Source(t) + Source(u)
  {
    if t.Hole? {
      SourceOfJoin(t.more, u);
      assert t.text + OPEN + (t.hole + CLOSE + (Source(t.more) + Source(u))) ==
             t.text + OPEN + (t.hole + CLOSE + Source(t.more)) + Source(u);
    }
  }

  lemma {:induction false} FillOfJoin(t: Template, u: Template, values: Values)
    ensures Fill(Join(t, u), values) == Both(Fill(t, values), Fill(u, values))
  {
    hide HoleValue;
    if t.Hole? {
      FillOfJoin(t.more, u, values);
    }
    if Fill(t, values).Some? && Fill(u, values).Some? {
      match t
      case End(text) => assert u.Hole? && Fill(u.more, values).Some? && HoleValue(u.hole, values).Some? ==>
        text + u.text + HoleValue(u.hole, values).value + Fill(u.more, values).value ==
        text + (u.text + HoleValue(u.hole, values).value + Fill(u.more, values).value);
      case Hole(text, hole, more) =>
        assert text + HoleValue(hole, values).value + (Fill(more, values).value + Fill(u, values).value) ==
               text + HoleValue(hole, values).value + Fill(more, values).value + Fill(u, values).value;
    }
  }

  function Both(a: Option<string>, b: Option<string>): Option<string> {
    if a.Some? && b.Some? then Some(a.value + b.value) else None
  }

  /**
   * Text without a mark renders as itself, a hole as its value or not at all, and templates one after
   * the other as their outputs one after the other: rendering is substitution.
   */
  lemma RenderedIsConcatenation(text: string, hole: string, t: Template, u: Template, values: Values)
    ensures Find(text, OPEN).None? ==> Rendered(text, values) == Some(text)
    ensures Free(hole, CLOSE) ==> Rendered(OPEN + hole + CLOSE, values) == HoleValue(hole, values)
    ensures Canonical(t) && Canonical(u) && Canonical(Join(t, u)) ==>
              Rendered(Source(t) + Source(u), values) == Both(Rendered(Source(t), values), Rendered(Source(u), values))
  {
    hide HoleValue, Find;
    if Free(hole, CLOSE) {
      LoneHole(hole, values);
    }
    if Canonical(t) && Canonical(u) && Canonical(Join(t, u)) {
      RenderedIsFill(t, values);
      RenderedIsFill(u, values);
      RenderedIsFill(Join(t, u), values);
      SourceOfJoin(t, u);
      FillOfJoin(t, u, values);
    }
  }

  lemma LoneHole(hole: string, values: Values)
    requires Free(hole, CLOSE)
    ensures Rendered(OPEN + hole + CLOSE, values) == HoleValue(hole, values)
  {
    hide HoleValue;
    var t := Hole("", hole, End(""));
    assert Source(t) == OPEN + hole + CLOSE;
    RenderedIsFill(t, values);
    var value := HoleValue(hole, values);
    assert value.Some? ==> "" + value.value + "" == value.value;
  }

  predicate AllSpace(s: string) {
    forall c <- s :: WhiteSpace(c)
  }

  /** A hole names a field in the singular or the plural, with any white space around it. */
  lemma HoleNamesField(before: string, id: string, after: string)
    requires AllSpace(before) && AllSpace(after) && id != "" && !WhiteSpace(id[|id| - 1])
    ensures HoleId(before + "placeholder." + id + after) == Some(id)
    ensures HoleId(before + "placeholders." + id + after) == Some(id)
  {
    var one, many := "placeholder." + id, "placeholders." + id;
    TrimPadded(before, one, after, WhiteSpace);
    TrimPadded(before, many, after, WhiteSpace);
    assert before + one + after == before + "placeholder." + id + after;
    assert before + many + after == before + "placeholders." + id + after;
    assert one[..12] == "placeholder." && one[12..] == id;
    assert many[..13] == "placeholders." && many[13..] == id && many[11] == 's';
  }
}

/** Rendering a catalog template into a server entry (crates/core/src/mcp_servers.rs). */
module Catalog {
  import opened Wrappers
  import opened Text
  import opened Templates
  import DockerArgs

  datatype Json =
    | Null | Bool(b: bool) | Number(n: int) | Str(s: string) | Arr(items: seq<Json>) | Obj(fields: map<string, Json>)

  datatype Field = Field(id: string, required: bool)

  /** `template` is the parsed template text, if it is valid JSON. */
  datatype CatalogServer = CatalogServer(id: string, template: Option<Json>, fields: seq<Field>)

  datatype Binding = Binding(id: string, placeholders: Values)

  datatype Auth = NoAuth | Bearer(token: string)

  datatype Runtime = DockerStdio(command: string, args: seq<string>, env: map<string, string>)

  /** The entry fields this path fills; all others are empty in what it returns. */
  datatype Entry = Entry(
    url: string, auth: Auth, headers: map<string, string>, runtime: Option<Runtime>, catalog: Option<Binding>)

  datatype Resolved = Resolved(render: Values, stored: Values)

  const KEEP_TOKEN := "\U{2022}\U{2022}\U{2022}\U{2022}\U{2022}\U{2022}\U{2022}\U{2022}"

  predicate SafeName(name: string) {
    name != "" && forall c <- name :: 'a' <= c <= 'z' || 'A' <= c <= 'Z' || '0' <= c <= '9' || c == '_' || c == '-'
  }

  // ----- resolve_catalog_placeholders -----

  function Ids(fields: seq<Field>): set<string> {
    set f <- fields :: f.id
  }

  /** A supplied value counts unless it is the keep token or blank; then the previous one does. */
  function Chosen(id: string, supplied: Values, previous: Values): Option<string> {
    if id in supplied && supplied[id] != KEEP_TOKEN && !IsBlank(supplied[id]) then Some(supplied[id])
    else if id in previous then Some(previous[id]) else None
  }

  function ValueOf(id: string, supplied: Values, previous: Values): string {
    var v := Chosen(id, supplied, previous);
    if v.Some? then v.value else ""
  }

  function NonEmpty(values: Values): Values {
    map id | id in values && values[id] != "" :: values[id]
  }

  function ResolvedOf(fields: seq<Field>, supplied: Values, previous: Values): Resolved {
    var render := RenderOf(fields, supplied, previous);
    Resolved(render, NonEmpty(render))
  }

  predicate DistinctIds(fields: seq<Field>) {
    forall i, j | 0 <= i < j < |fields| :: fields[i].id != fields[j].id
  }

  predicate FieldsOk(fields: seq<Field>) {
    (forall f <- fields :: SafeName(f.id)) && DistinctIds(fields)
  }

  predicate Supplied(f: Field, supplied: Values, previous: Values) {
    f.required ==> !IsBlank(ValueOf(f.id, supplied, previous))
  }

  predicate Resolvable(fields: seq<Field>, supplied: Values, previous: Values) {
    && FieldsOk(fields)
    && supplied.Keys <= Ids(fields)
    && forall f <- fields :: Supplied(f, supplied, previous)
  }

  method CheckFields(fields: seq<Field>, supplied: Values) returns (ok: bool)
    ensures ok <==> FieldsOk(fields) && supplied.Keys <= Ids(fields)
  {
    hide SafeName;
    var ids: set<string> := {};
    for i := 0 to |fields|
      invariant ids == Ids(fields[..i]) && FieldsOk(fields[..i])
    {
      assert fields[..i + 1] == fields[..i] + [fields[i]];
      if !SafeName(fields[i].id) {
        assert fields[i] in fields;
        return false;
      }
      if fields[i].id in ids {
        var f :| f in fields[..i] && f.id == fields[i].id;
        return false;
      }
      ids := ids + {fields[i].id};
    }
    assert fields[..|fields|] == fields;
    return supplied.Keys <= ids;
  }

  /** The whole resolution: which requests are refused, what is rendered, what is kept. */
  method ResolveCatalogPlaceholders(fields: seq<Field>, supplied: Values, previous: Values) returns (r: Option<Resolved>)
    ensures r == if Resolvable(fields, supplied, previous) then Some(ResolvedOf(fields, supplied, previous)) else None
  {
    hide IsBlank, FieldsOk, Chosen;
    var ok := CheckFields(fields, supplied);
    if !ok {
      return None;
    }
    var render: Values, stored: Values := map[], map[];
    for i := 0 to |fields|
      invariant Resolved(render, stored) == ResolvedOf(fields[..i], supplied, previous)
      invariant forall f <- fields[..i] :: Supplied(f, supplied, previous)
    {
      assert fields[..i + 1] == fields[..i] + [fields[i]];
      var f := fields[i];
      var chosen := Chosen(f.id, supplied, previous);
      if chosen.None? && f.required {
        BlankIsBlank();
        assert f in fields && !Supplied(f, supplied, previous);
        return None;
      }
      var value := if chosen.Some? then chosen.value else "";
      if f.required && IsBlank(value) {
        assert f in fields && !Supplied(f, supplied, previous);
        return None;
      }
      render := render[f.id := value];
      stored := if value == "" then stored else stored[f.id := value];
      ResolvedSnoc(fields[..i], f, supplied, previous);
    }
    assert fields[..|fields|] == fields;
    return Some(Resolved(render, stored));
  }

  lemma BlankIsBlank()
    ensures IsBlank("")
  {
  }

  function RenderOf(fields: seq<Field>, supplied: Values, previous: Values): Values {
    map id | id in Ids(fields) :: ValueOf(id, supplied, previous)
  }

  lemma RenderSnoc(fields: seq<Field>, f: Field, supplied: Values, previous: Values)
    ensures RenderOf(fields + [f], supplied, previous) ==
            RenderOf(fields, supplied, previous)[f.id := ValueOf(f.id, supplied, previous)]
  {
    hide ValueOf;
    assert Ids(fields + [f]) == Ids(fields) + {f.id};
  }

  lemma NonEmptyPut(values: Values, id: string, value: string)
    requires id in values ==> values[id] == value
    ensures NonEmpty(values[id := value]) == if value == "" then NonEmpty(values) else NonEmpty(values)[id := value]
  {
  }

  lemma ResolvedSnoc(fields: seq<Field>, f: Field, supplied: Values, previous: Values)
    ensures var r, value := ResolvedOf(fields, supplied, previous), ValueOf(f.id, supplied, previous);
            ResolvedOf(fields + [f], supplied, previous) ==
            Resolved(r.render[f.id := value], if value == "" then r.stored else r.stored[f.id := value])
  {
    hide ValueOf, NonEmpty;
    RenderSnoc(fields, f, supplied, previous);
    NonEmptyPut(RenderOf(fields, supplied, previous), f.id, ValueOf(f.id, supplied, previous));
  }

  /** Every field is kept, blank or omitted. */
  predicate KeepsAll(fields: seq<Field>, supplied: Values) {
    forall id | id in supplied :: id in Ids(fields) && (supplied[id] == KEEP_TOKEN || IsBlank(supplied[id]))
  }

  /** Keeping every field of a resolved binding resolves to the same values again. */
  lemma KeepingResolvesTheSame(fields: seq<Field>, supplied: Values, previous: Values, kept: Values)
    requires Resolvable(fields, supplied, previous) && KeepsAll(fields, kept)
    ensures var r := ResolvedOf(fields, supplied, previous);
            Resolvable(fields, kept, r.stored) && ResolvedOf(fields, kept, r.stored) == r
  {
    hide IsBlank, FieldsOk;
    BlankIsBlank();
    var r := ResolvedOf(fields, supplied, previous);
    forall id | id in Ids(fields) ensures ValueOf(id, kept, r.stored) == r.render[id] {
    }
    assert ResolvedOf(fields, kept, r.stored).render == r.render;
    forall f | f in fields ensures Supplied(f, kept, r.stored) {
      assert Supplied(f, supplied, previous) && f.id in Ids(fields);
    }
  }

  /** The request really sets the field: it does not keep it, blank it or leave it out. */
  predicate Sets(supplied: Values, id: string) {
    id in supplied && supplied[id] != KEEP_TOKEN && !IsBlank(supplied[id])
  }

  /** Over a stored binding a request replaces what it really sets and keeps everything else. */
  lemma ResolveOver(fields: seq<Field>, first: Values, previous: Values, second: Values, id: string)
    requires id in Ids(fields)
    ensures var one := ResolvedOf(fields, first, previous);
            ResolvedOf(fields, second, one.stored).render[id] == if Sets(second, id) then second[id] else one.render[id]
  {
    hide IsBlank;
  }

  /** Over nothing it renders what it really sets, and empty text elsewhere. */
  lemma ResolveFresh(fields: seq<Field>, supplied: Values, id: string)
    requires id in Ids(fields)
    ensures ResolvedOf(fields, supplied, map[]).render[id] == if Sets(supplied, id) then supplied[id] else ""
  {
    hide IsBlank;
  }

  /** What is stored after a sequence of requests, each resolved over what the ones before it left. */
  function StoredAfter(fields: seq<Field>, requests: seq<Values>): Values {
    if requests == [] then map[] else
    ResolvedOf(fields, requests[|requests| - 1], StoredAfter(fields, requests[..|requests| - 1])).stored
  }

  /** Request `i` really sets the field and none after it does. */
  predicate LastSets(requests: seq<Values>, id: string, i: nat) {
    i < |requests| && Sets(requests[i], id) && forall j | i < j < |requests| :: !Sets(requests[j], id)
  }

  lemma StoredStep(fields: seq<Field>, last: Values, previous: Values, id: string)
    requires id in previous ==> !IsBlank(previous[id])
    ensures var now := ResolvedOf(fields, last, previous).stored;
            && (id in now <==> id in Ids(fields) && (Sets(last, id) || id in previous))
            && (id in now ==> !IsBlank(now[id]) && now[id] == if Sets(last, id) then last[id] else previous[id])
  {
    hide IsBlank;
    BlankIsBlank();
  }

  /** After any requests a field is as the last one that really set it said, and absent if none did. */
  lemma {:induction false} StoredIsLastSet(fields: seq<Field>, requests: seq<Values>, id: string)
    ensures var stored := StoredAfter(fields, requests);
            && (id in stored <==> id in Ids(fields) && exists i: nat :: LastSets(requests, id, i))
            && (id in stored ==> !IsBlank(stored[id]))
            && (forall i: nat | LastSets(requests, id, i) && id in stored :: stored[id] == requests[i][id])
    decreases |requests|
  {
    hide IsBlank, Sets, ResolvedOf, Ids;
    if requests != [] {
      var n := |requests| - 1;
      StoredIsLastSet(fields, requests[..n], id);
      StoredStep(fields, requests[n], StoredAfter(fields, requests[..n]), id);
      if Sets(requests[n], id) {
        assert LastSets(requests, id, n);
      }
      forall i: nat | i < n ensures LastSets(requests, id, i) <==> LastSets(requests[..n], id, i) && !Sets(requests[n], id) {
      }
    }
  }

  /** A request is accepted exactly when the template is sound, its fields are known and every required one has been set by then. */
  lemma AcceptedIff(fields: seq<Field>, requests: seq<Values>, supplied: Values)
    ensures Resolvable(fields, supplied, StoredAfter(fields, requests)) <==>
            && FieldsOk(fields) && supplied.Keys <= Ids(fields)
            && forall f <- fields | f.required :: Sets(supplied, f.id) || exists i: nat :: LastSets(requests, f.id, i)
  {
    hide IsBlank, StoredAfter, FieldsOk, LastSets;
    BlankIsBlank();
    var previous := StoredAfter(fields, requests);
    forall f | f in fields && f.required
      ensures !IsBlank(ValueOf(f.id, supplied, previous)) <==>
              Sets(supplied, f.id) || exists i: nat :: LastSets(requests, f.id, i)
    {
      StoredIsLastSet(fields, requests, f.id);
    }
  }

  // ----- Rendering and parsing -----

  predicate Renderable(j: Json, values: Values) {
    match j
    case Str(s) => Rendered(s, values).Some?
    case Arr(items) => forall i | 0 <= i < |items| :: Renderable(items[i], values)
    case Obj(fields) => forall k | k in fields :: Renderable(fields[k], values)
    case _ => true
  }

  function RenderJson(j: Json, values: Values): Json
    requires Renderable(j, values)
  {
    match j
    case Str(s) => Str(Rendered(s, values).value)
    case Arr(items) => Arr(seq(|items|, i requires 0 <= i < |items| => RenderJson(items[i], values)))
    case Obj(fields) => Obj(map k | k in fields :: RenderJson(fields[k], values))
    case _ => j
  }

  predicate HasInputPlaceholder(j: Json) {
    match j
    case Str(s) => Contains(s, "${input:")
    case Arr(items) => exists i | 0 <= i < |items| :: HasInputPlaceholder(items[i])
    case Obj(fields) => exists k | k in fields :: HasInputPlaceholder(fields[k])
    case _ => false
  }

  /** A member that must be an object where present. */
  predicate ObjectOrAbsent(obj: map<string, Json>, key: string) {
    key in obj ==> obj[key].Obj?
  }

  function ServerMap(obj: map<string, Json>): Option<map<string, Json>> {
    if !ObjectOrAbsent(obj, "servers") || !ObjectOrAbsent(obj, "mcpServers") then None
    else if "servers" in obj && "mcpServers" in obj then None
    else if "servers" in obj then Some(obj["servers"].fields)
    else if "mcpServers" in obj then Some(obj["mcpServers"].fields)
    else None
  }

  /** The document names exactly one server, safely, and configures it with an object. */
  predicate NamesServer(raw: Json, name: string, server: map<string, Json>) {
    && raw.Obj? && !HasInputPlaceholder(raw) && SafeName(name)
    && ServerMap(raw.fields) == Some(map[name := Obj(server)])
  }

  function StringMap(server: map<string, Json>, key: string): Option<map<string, string>> {
    if key !in server then Some(map[])
    else if !server[key].Obj? || exists k | k in server[key].fields :: !server[key].fields[k].Str? then None
    else Some(map k | k in server[key].fields :: server[key].fields[k].s)
  }

  function StringArray(server: map<string, Json>, key: string): Option<seq<string>> {
    if key !in server then Some([])
    else if !server[key].Arr? || exists j <- server[key].items :: !j.Str? then None
    else var items := server[key].items; Some(seq(|items|, i requires 0 <= i < |items| && items[i].Str? => items[i].s))
  }

  /** A string member, trimmed; blank counts as absent. */
  function TrimmedString(server: map<string, Json>, key: string): Option<string> {
    if key in server && server[key].Str? && !IsBlank(server[key].s) then Some(Trim(server[key].s, WhiteSpace)) else None
  }

  function ServerType(server: map<string, Json>): string {
    if "type" in server && server["type"].Str? then server["type"].s
    else if "url" in server then "http" else "stdio"
  }

  predicate IsAuthHeader(k: string) {
    EqIgnoreCase(k, "authorization")
  }

  function AuthOf(value: string): Auth {
    var v := Trim(value, WhiteSpace);
    if StartsWith(v, "Bearer ") && !IsBlank(v[7..]) then Bearer(Trim(v[7..], WhiteSpace)) else NoAuth
  }

  /**
   * The header map has no fixed order, so with several spellings of `Authorization` any of them may
   * be the one the search finds first.
   */
  predicate MayFind(headers: map<string, string>, auth: Auth) {
    if exists k | k in headers :: IsAuthHeader(k)
    then exists k | k in headers :: IsAuthHeader(k) && auth == AuthOf(headers[k])
    else auth == NoAuth
  }

  function WithoutAuth(headers: map<string, string>): map<string, string> {
    map k | k in headers && !IsAuthHeader(k) :: headers[k]
  }

  predicate HttpEntry(server: map<string, Json>, entry: Entry) {
    var url, headers := TrimmedString(server, "url"), StringMap(server, "headers");
    && url.Some? && headers.Some? && MayFind(headers.value, entry.auth)
    && entry == Entry(url.value, entry.auth, if entry.auth.Bearer? then WithoutAuth(headers.value) else headers.value, None, None)
  }

  predicate StdioEntry(server: map<string, Json>, entry: Entry) {
    var args, env := StringArray(server, "args"), StringMap(server, "env");
    && TrimmedString(server, "command") == Some("docker") && args.Some? && env.Some? && DockerArgs.Acceptable(args.value)
    && var image := DockerArgs.ImageOf(args.value);
       entry == Entry("docker://" + (if image.Some? then image.value else "unknown"), NoAuth, map[],
                      Some(DockerStdio("docker", args.value, env.value)), None)
  }

  predicate ServerEntry(server: map<string, Json>, entry: Entry) {
    if IsHttp(server) then HttpEntry(server, entry)
    else ServerType(server) == "stdio" && StdioEntry(server, entry)
  }

  function PreviousValues(catalog: CatalogServer, existing: Option<Entry>): Values {
    if existing.Some? && existing.value.catalog.Some? && existing.value.catalog.value.id == catalog.id
    then existing.value.catalog.value.placeholders else map[]
  }

  /** The rendered document for resolved values. */
  ghost predicate RendersTo(catalog: CatalogServer, render: Values, name: string, server: map<string, Json>) {
    && catalog.template.Some? && Renderable(catalog.template.value, render)
    && NamesServer(RenderJson(catalog.template.value, render), name, server)
  }

  /** `(name, entry)` is a possible result of `entry_from_docker_catalog_template`. */
  ghost predicate Produces(catalog: CatalogServer, supplied: Values, existing: Option<Entry>, name: string, entry: Entry) {
    var previous := PreviousValues(catalog, existing);
    var r := ResolvedOf(catalog.fields, supplied, previous);
    && SafeName(catalog.id) && Resolvable(catalog.fields, supplied, previous)
    && entry.catalog == Some(Binding(catalog.id, r.stored))
    && exists server :: RendersTo(catalog, r.render, name, server) && ServerEntry(server, entry.(catalog := None))
  }

  predicate IsHttp(server: map<string, Json>) {
    ServerType(server) == "http" || ServerType(server) == "sse"
  }

  /** Every spelling of an HTTP server's authorization header says the same. */
  predicate OneAuth(server: map<string, Json>) {
    var headers := StringMap(server, "headers");
    IsHttp(server) && headers.Some? ==>
      forall j, k | j in headers.value && k in headers.value && IsAuthHeader(j) && IsAuthHeader(k) ::
        AuthOf(headers.value[j]) == AuthOf(headers.value[k])
  }

  lemma SameServer(a: map<string, Json>, b: map<string, Json>, n: string, m: string)
    requires map[n := Obj(a)] == map[m := Obj(b)]
    ensures n == m && a == b
  {
    assert n in map[n := Obj(a)] && m in map[m := Obj(b)];
    assert map[n := Obj(a)][n] == map[m := Obj(b)][n];
  }

  lemma RendersToOne(catalog: CatalogServer, render: Values, n: string, a: map<string, Json>, m: string, b: map<string, Json>)
    requires RendersTo(catalog, render, n, a) && RendersTo(catalog, render, m, b)
    ensures n == m && a == b
  {
    hide Renderable, RenderJson, HasInputPlaceholder, SafeName;
    SameServer(a, b, n, m);
  }

  lemma OneAuthOneEntry(server: map<string, Json>, one: Entry, two: Entry)
    requires ServerEntry(server, one) && ServerEntry(server, two) && OneAuth(server)
    ensures one == two
  {
    hide StringMap, StringArray, TrimmedString, AuthOf, IsAuthHeader, ServerType;
  }

  /** The rest of an earlier result is rendered and parsed again from the same values. */
  lemma ProducedAgain(catalog: CatalogServer, supplied: Values, existing: Option<Entry>, kept: Values, name: string, entry: Entry)
    requires Produces(catalog, supplied, existing, name, entry) && KeepsAll(catalog.fields, kept)
    ensures Produces(catalog, kept, Some(entry), name, entry)
    ensures var r := ResolvedOf(catalog.fields, supplied, PreviousValues(catalog, existing));
            ResolvedOf(catalog.fields, kept, PreviousValues(catalog, Some(entry))) == r
  {
    hide Resolvable, ResolvedOf, KeepsAll, SafeName, RendersTo, ServerEntry;
    KeepingResolvesTheSame(catalog.fields, supplied, PreviousValues(catalog, existing), kept);
  }

  /**
   * Rendering an unchanged template again with every field kept, blank or omitted, over an entry it
   * produced before, gives the same name and the same entry, as long as the rendered server does not
   * spell the authorization header in several ways that disagree.
   */
  lemma RenderingAgainChangesNothing(catalog: CatalogServer, supplied: Values, existing: Option<Entry>, kept: Values,
                                     name: string, entry: Entry, server: map<string, Json>, name2: string, entry2: Entry)
    requires Produces(catalog, supplied, existing, name, entry) && KeepsAll(catalog.fields, kept)
    requires Produces(catalog, kept, Some(entry), name2, entry2)
    requires RendersTo(catalog, ResolvedOf(catalog.fields, supplied, PreviousValues(catalog, existing)).render, name, server)
    requires OneAuth(server)
    ensures name2 == name && entry2 == entry
  {
    hide Resolvable, ResolvedOf, KeepsAll, SafeName, RendersTo, ServerEntry, OneAuth, PreviousValues;
    ProducedAgain(catalog, supplied, existing, kept, name, entry);
    var r := ResolvedOf(catalog.fields, supplied, PreviousValues(catalog, existing));
    var one :| RendersTo(catalog, r.render, name, one) && ServerEntry(one, entry.(catalog := None));
    var two :| RendersTo(catalog, r.render, name2, two) && ServerEntry(two, entry2.(catalog := None));
    RendersToOne(catalog, r.render, name, server, name, one);
    RendersToOne(catalog, r.render, name, server, name2, two);
    OneAuthOneEntry(server, entry.(catalog := None), entry2.(catalog := None));
  }

  /** The condition is exact: where two spellings disagree, the second rendering may differ. */
  lemma AmbiguousAuthMayDiffer(catalog: CatalogServer, supplied: Values, existing: Option<Entry>, kept: Values,
                               name: string, entry: Entry, server: map<string, Json>) returns (entry2: Entry)
    requires Produces(catalog, supplied, existing, name, entry) && KeepsAll(catalog.fields, kept)
    requires RendersTo(catalog, ResolvedOf(catalog.fields, supplied, PreviousValues(catalog, existing)).render, name, server)
    requires !OneAuth(server)
    ensures Produces(catalog, kept, Some(entry), name, entry2) && entry2 != entry
  {
    hide Resolvable, ResolvedOf, KeepsAll, SafeName, RendersTo, PreviousValues;
    ProducedAgain(catalog, supplied, existing, kept, name, entry);
    var r := ResolvedOf(catalog.fields, supplied, PreviousValues(catalog, existing));
    var one :| RendersTo(catalog, r.render, name, one) && ServerEntry(one, entry.(catalog := None));
    RendersToOne(catalog, r.render, name, server, name, one);
    entry2 := OtherAuth(server, entry.(catalog := None));
    entry2 := entry2.(catalog := entry.catalog);
    assert entry2.(catalog := None).auth == entry2.auth;
  }

  lemma OtherAuth(server: map<string, Json>, entry: Entry) returns (other: Entry)
    requires ServerEntry(server, entry) && !OneAuth(server)
    ensures ServerEntry(server, other) && other.auth != entry.auth && other.catalog.None?
  {
    hide StringMap, StringArray, TrimmedString, AuthOf, IsAuthHeader, ServerType;
    var headers := StringMap(server, "headers").value;
    var j, k :| j in headers && k in headers && IsAuthHeader(j) && IsAuthHeader(k) && AuthOf(headers[j]) != AuthOf(headers[k]);
    var found := if AuthOf(headers[j]) == entry.auth then k else j;
    var auth := AuthOf(headers[found]);
    assert found in headers && IsAuthHeader(found);
    assert MayFind(headers, auth);
    other := entry.(auth := auth, headers := if auth.Bearer? then WithoutAuth(headers) else headers);
  }

  // ----- What a document says -----

  function Strings(items: seq<string>): Json {
    Arr(seq(|items|, i requires 0 <= i < |items| => Str(items[i])))
  }

  function Table(entries: map<string, string>): Json {
    Obj(map k | k in entries :: Str(entries[k]))
  }

  lemma StringsBack(server: map<string, Json>, key: string, items: seq<string>)
    requires key in server && server[key] == Strings(items)
    ensures StringArray(server, key) == Some(items)
  {
    var js := server[key].items;
    assert forall j <- js :: j.Str?;
    assert StringArray(server, key).value == items;
  }

  lemma TableBack(server: map<string, Json>, key: string, entries: map<string, string>)
    requires key in server && server[key] == Table(entries)
    ensures StringMap(server, key) == Some(entries)
  {
    assert StringMap(server, key).value == entries;
  }

  /** A Docker server, with its type spelt out or left to be guessed. */
  function DockerServer(args: seq<string>, env: map<string, string>, typed: bool): map<string, Json> {
    var server := map["command" := Str("docker"), "args" := Strings(args), "env" := Table(env)];
    if typed then server["type" := Str("stdio")] else server
  }

  lemma DockerServerMembers(args: seq<string>, env: map<string, string>, typed: bool)
    ensures var server := DockerServer(args, env, typed);
            && "command" in server && server["command"] == Str("docker")
            && "args" in server && server["args"] == Strings(args)
            && "env" in server && server["env"] == Table(env)
            && ServerType(server) == "stdio"
  {
    assert "command" != "args" && "args" != "env" && "command" != "env";
    assert "type" != "args" && "type" != "env" && "type" != "command";
    assert "url" != "args" && "url" != "env" && "url" != "command" && "url" != "type";
  }

  /** It is read back as written, if and only if its arguments are acceptable. */
  lemma DockerServerReadsBack(args: seq<string>, env: map<string, string>, typed: bool, entry: Entry)
    ensures ServerEntry(DockerServer(args, env, typed), entry) <==>
            && DockerArgs.Acceptable(args) && DockerArgs.ImageOf(args).Some?
            && entry == Entry("docker://" + DockerArgs.ImageOf(args).value, NoAuth, map[], Some(DockerStdio("docker", args, env)), None)
  {
    hide DockerServer, Strings, Table, StringArray, StringMap, DockerArgs.Acceptable, DockerArgs.ImageOf, ServerType;
    var server := DockerServer(args, env, typed);
    DockerServerMembers(args, env, typed);
    StringsBack(server, "args", args);
    TableBack(server, "env", env);
    DockerIsTrimmed();
    if DockerArgs.Acceptable(args) {
      DockerArgs.AcceptedIsStripped(args);
    }
    assert "stdio" != "http" && "stdio" != "sse";
  }

  lemma DockerIsTrimmed()
    ensures Trim("docker", WhiteSpace) == "docker" && !IsBlank("docker")
  {
  }

  /** An HTTP server of a given type, or of the type its url implies. */
  function WebServer(url: string, headers: map<string, string>, kind: Option<string>): map<string, Json> {
    var server := map["url" := Str(url), "headers" := Table(headers)];
    if kind.Some? then server["type" := Str(kind.value)] else server
  }

  lemma WebServerMembers(url: string, headers: map<string, string>, kind: Option<string>)
    ensures var server := WebServer(url, headers, kind);
            && "url" in server && server["url"] == Str(url) && "headers" in server && server["headers"] == Table(headers)
            && ServerType(server) == if kind.Some? then kind.value else "http"
  {
    assert "url" != "headers" && "type" != "url" && "type" != "headers";
  }

  /** It is read back with a bearer token taken out of the headers, and otherwise with all of them. */
  lemma WebServerReadsBack(url: string, headers: map<string, string>, kind: Option<string>, header: string, token: string, entry: Entry)
    requires !IsBlank(url) && (kind.Some? ==> kind.value == "http" || kind.value == "sse")
    requires (forall k | k in headers :: !IsAuthHeader(k)) && IsAuthHeader(header) && Trim(token, WhiteSpace) == token != ""
    ensures ServerEntry(WebServer(url, headers, kind), entry) <==> entry == Entry(Trim(url, WhiteSpace), NoAuth, headers, None, None)
    ensures ServerEntry(WebServer(url, headers[header := "Bearer " + token], kind), entry) <==>
            entry == Entry(Trim(url, WhiteSpace), Bearer(token), headers, None, None)
  {
    hide WebServer, Table, StringMap, IsAuthHeader, AuthOf, ServerType, IsBlank;
    var both := headers[header := "Bearer " + token];
    WebServerMembers(url, headers, kind);
    WebServerMembers(url, both, kind);
    TableBack(WebServer(url, headers, kind), "headers", headers);
    TableBack(WebServer(url, both, kind), "headers", both);
    BearerIsRead(token);
    assert header in both && WithoutAuth(both) == headers;
  }

  lemma BearerIsRead(token: string)
    requires Trim(token, WhiteSpace) == token != ""
    ensures AuthOf("Bearer " + token) == Bearer(token)
  {
    hide Trim, WhiteSpace;
    var v := "Bearer " + token;
    BearerIsTrimmed(token);
    assert v[..7] == "Bearer " && v[7..] == token;
  }

  lemma BearerIsTrimmed(token: string)
    requires Trim(token, WhiteSpace) == token != ""
    ensures Trim("Bearer " + token, WhiteSpace) == "Bearer " + token
  {
    hide Trim;
    var v := "Bearer " + token;
    TrimIsTrimmed(token, WhiteSpace);
    assert v[0] == 'B' && v[|v| - 1] == token[|token| - 1];
    TrimPadded("", v, "", WhiteSpace);
    assert "" + v + "" == v;
  }

  /** A server of any other type is refused. */
  lemma OtherTypesAreRefused(server: map<string, Json>, entry: Entry)
    requires "type" in server && server["type"].Str? && server["type"].s !in ["http", "sse", "stdio"]
    ensures !ServerEntry(server, entry)
  {
  }

  /** The server stands under either of two members, and not under both. */
  lemma ServerStandsUnderOne(name: string, server: map<string, Json>, others: map<string, Json>)
    requires SafeName(name)
    ensures var named := Obj(map[name := Obj(server)]);
            && (!HasInputPlaceholder(Obj(map["servers" := named])) ==> NamesServer(Obj(map["servers" := named]), name, server))
            && (!HasInputPlaceholder(Obj(map["mcpServers" := named])) ==> NamesServer(Obj(map["mcpServers" := named]), name, server))
            && !NamesServer(Obj(map["servers" := named, "mcpServers" := Obj(others)]), name, server)
            && !NamesServer(Obj(map["servers" := Obj(others), "mcpServers" := named]), name, server)
  {
    hide HasInputPlaceholder, SafeName;
    assert "servers" != "mcpServers";
  }

  /** An input mark is found wherever it stands in a list or an object. */
  lemma InputIsFound(before: seq<Json>, text: string, rest: string, after: seq<Json>, fields: map<string, Json>, key: string)
    ensures var marked := Str(text + "${input:" + rest);
            HasInputPlaceholder(Arr(before + [marked] + after)) && HasInputPlaceholder(Obj(fields[key := marked]))
  {
    var s := text + "${input:" + rest;
    assert s[|text|..] == "${input:" + rest;
    assert (before + [Str(s)] + after)[|before|] == Str(s);
    assert fields[key := Str(s)][key] == Str(s);
  }

  // ----- Both cases are real -----

  /** Text without a brace or a dollar sign renders to itself and asks for no input. */
  predicate PlainText(s: string) {
    '{' !in s && '$' !in s
  }

  predicate Plain(j: Json) {
    match j
    case Str(s) => PlainText(s)
    case Arr(items) => forall i | 0 <= i < |items| :: Plain(items[i])
    case Obj(fields) => forall k | k in fields :: Plain(fields[k])
    case _ => true
  }

  lemma PlainTextRenders(s: string, values: Values)
    requires PlainText(s)
    ensures Rendered(s, values) == Some(s) && !Contains(s, "${input:")
  {
    hide Rendered;
    forall i | 0 <= i <= |s| ensures !(OPEN <= s[i..]) && !("${input:" <= s[i..]) {
      if i < |s| {
        assert s[i..][0] == s[i] && s[i] in s;
      }
    }
    RenderedPlain(s, values);
  }

  lemma {:induction false} PlainRenders(j: Json, values: Values)
    requires Plain(j)
    ensures Renderable(j, values) && RenderJson(j, values) == j && !HasInputPlaceholder(j)
  {
    hide Rendered, Contains, PlainText;
    match j {
      case Str(s) => PlainTextRenders(s, values);
      case Arr(items) =>
        forall i | 0 <= i < |items| ensures Renderable(items[i], values) && RenderJson(items[i], values) == items[i] && !HasInputPlaceholder(items[i]) {
          PlainRenders(items[i], values);
        }
        assert RenderJson(j, values).items == items;
      case Obj(fields) =>
        forall k | k in fields ensures Renderable(fields[k], values) && RenderJson(fields[k], values) == fields[k] && !HasInputPlaceholder(fields[k]) {
          PlainRenders(fields[k], values);
        }
        assert RenderJson(j, values).fields == fields;
      case _ =>
    }
  }

  /** A template for an HTTP server with the given headers, and no fields to fill in. */
  function HttpServer(headers: map<string, string>): map<string, Json> {
    map["url" := Str("u"), "headers" := Table(headers)]
  }

  function HttpCatalog(headers: map<string, string>): CatalogServer {
    CatalogServer("c", Some(Obj(map["servers" := Obj(map["s" := Obj(HttpServer(headers))])])), [])
  }

  function HttpResult(headers: map<string, string>, auth: Auth): Entry {
    Entry("u", auth, if auth.Bearer? then WithoutAuth(headers) else headers, None, Some(Binding("c", map[])))
  }

  lemma HttpRendersTo(headers: map<string, string>, render: Values)
    requires forall k | k in headers :: PlainText(headers[k])
    ensures RendersTo(HttpCatalog(headers), render, "s", HttpServer(headers))
  {
    hide PlainText, Renderable, RenderJson, HasInputPlaceholder;
    var server := HttpServer(headers);
    assert PlainText("u") by { PlainU(); }
    assert Plain(Table(headers));
    assert Plain(Obj(server));
    assert Plain(Obj(map["s" := Obj(server)]));
    var raw := HttpCatalog(headers).template.value;
    assert Plain(raw);
    PlainRenders(raw, render);
    assert "mcpServers" !in raw.fields by { assert "mcpServers"[0] != "servers"[0]; }
  }

  lemma PlainU()
    ensures PlainText("u") && Trim("u", WhiteSpace) == "u"
  {
  }

  lemma HttpServerParses(headers: map<string, string>, auth: Auth)
    requires MayFind(headers, auth)
    ensures ServerEntry(HttpServer(headers), HttpResult(headers, auth).(catalog := None))
    ensures StringMap(HttpServer(headers), "headers") == Some(headers) && IsHttp(HttpServer(headers))
  {
    hide MayFind, WithoutAuth;
    var server := HttpServer(headers);
    PlainU();
    assert "headers"[0] != "url"[0] && "type"[0] != "url"[0] && "type"[0] != "headers"[0];
    assert StringMap(server, "headers").value == headers;
  }

  lemma HttpProduces(headers: map<string, string>, auth: Auth)
    requires (forall k | k in headers :: PlainText(headers[k])) && MayFind(headers, auth)
    ensures Produces(HttpCatalog(headers), map[], None, "s", HttpResult(headers, auth))
    ensures RendersTo(HttpCatalog(headers), ResolvedOf([], map[], map[]).render, "s", HttpServer(headers))
  {
    hide PlainText, MayFind, RendersTo, ServerEntry, WithoutAuth;
    var r := ResolvedOf([], map[], map[]);
    assert r.render == map[] && r.stored == map[];
    HttpRendersTo(headers, r.render);
    HttpServerParses(headers, auth);
  }

  /** Without authorization headers, rendering again gives the same entry. */
  lemma PlainServerIsStable(name: string, entry: Entry)
    requires Produces(HttpCatalog(map[]), map[], Some(HttpResult(map[], NoAuth)), name, entry)
    ensures Produces(HttpCatalog(map[]), map[], None, "s", HttpResult(map[], NoAuth))
    ensures name == "s" && entry == HttpResult(map[], NoAuth)
  {
    hide Produces, RendersTo, ServerEntry;
    HttpProduces(map[], NoAuth);
    HttpServerParses(map[], NoAuth);
    RenderingAgainChangesNothing(HttpCatalog(map[]), map[], None, map[], "s", HttpResult(map[], NoAuth), HttpServer(map[]), name, entry);
  }

  const TWO_TOKENS: map<string, string> := map["Authorization" := "Bearer a", "authorization" := "Bearer b"]

  lemma TokensDisagree()
    ensures AuthOf("Bearer a") == Bearer("a") && AuthOf("Bearer b") == Bearer("b")
    ensures PlainText("Bearer a") && PlainText("Bearer b")
  {
    assert Trim("Bearer a", WhiteSpace) == "Bearer a" && Trim("Bearer b", WhiteSpace) == "Bearer b";
    assert "Bearer a"[7..] == "a" && "Bearer b"[7..] == "b";
    assert Trim("a", WhiteSpace) == "a" && Trim("b", WhiteSpace) == "b";
  }

  lemma BothAreAuth()
    ensures IsAuthHeader("Authorization") && IsAuthHeader("authorization") && "Authorization" != "authorization"
  {
    assert "Authorization"[0] != "authorization"[0];
  }

  /** A template that spells the header twice: what it produced first, it need not produce again. */
  lemma TwoTokensMayDiffer() returns (entry2: Entry)
    ensures Produces(HttpCatalog(TWO_TOKENS), map[], None, "s", HttpResult(TWO_TOKENS, Bearer("a")))
    ensures Produces(HttpCatalog(TWO_TOKENS), map[], Some(HttpResult(TWO_TOKENS, Bearer("a"))), "s", entry2)
    ensures entry2 != HttpResult(TWO_TOKENS, Bearer("a"))
  {
    hide Produces, RendersTo, ServerEntry, PlainText, AuthOf, IsAuthHeader, IsHttp, HttpServer;
    TokensDisagree();
    BothAreAuth();
    assert "Authorization" in TWO_TOKENS && TWO_TOKENS["Authorization"] == "Bearer a";
    assert "authorization" in TWO_TOKENS && TWO_TOKENS["authorization"] == "Bearer b";
    HttpProduces(TWO_TOKENS, Bearer("a"));
    HttpServerParses(TWO_TOKENS, Bearer("a"));
    entry2 := AmbiguousAuthMayDiffer(HttpCatalog(TWO_TOKENS), map[], None, map[], "s", HttpResult(TWO_TOKENS, Bearer("a")), HttpServer(TWO_TOKENS));
  }
}
