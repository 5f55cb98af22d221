/**
 * Which mirrored paths are durable state, and which chat bodies are placeholders
 * (crates/core/src/state_files.rs).
 */
module StatePaths {
  import opened Wrappers
  import opened Text
  import opened Envelope

  /** What `Path::components` yields on Unix. */
  datatype Component = RootDir | CurDir | ParentDir | Normal(part: string)

  function Named(part: string): Component {
    if part == ".." then ParentDir else Normal(part)
  }

  /** Empty parts and inner `.` parts vanish; a leading `.` is kept. */
  function Inner(parts: seq<string>): seq<Component> {
    if parts == [] then []
    else if parts[0] == "" || parts[0] == "." then Inner(parts[1..])
    else [Named(parts[0])] + Inner(parts[1..])
  }

  function Components(path: string): seq<Component> {
    var parts := Split(path, '/');
    if path != "" && path[0] == '/' then [RootDir] + Inner(parts)
    else if parts[0] == "." then [CurDir] + Inner(parts[1..])
    else Inner(parts)
  }

  function Utf8Length(s: string): nat {
    if s == "" then 0 else
    var c := s[0] as int;
    (if c < 0x80 then 1 else if c < 0x800 then 2 else if c < 0x10000 then 3 else 4) + Utf8Length(s[1..])
  }

  predicate RelativePath(path: string) {
    && path != "" && Utf8Length(path) <= 2048 && '\0' !in path
    && path[0] != '/'
    && forall c <- Components(path) :: c.Normal?
  }

  predicate Visible(c: Component) {
    c.Normal? && c.part != "" && c.part[0] != '.'
  }

  /** The text after the last dot, unless that dot starts the name. */
  function Extension(name: string): Option<string> {
    var parts := Split(name, '.');
    if |parts| == 1 || (|parts| == 2 && parts[0] == "") then None else Some(parts[|parts| - 1])
  }

  predicate HasMdExtension(name: string) {
    Extension(name).Some? && EqIgnoreCase(Extension(name).value, "md")
  }

  predicate MirrorsChannelPath(parts: seq<string>) {
    if parts == [] then false
    else if |parts| == 1 then HasMdExtension(parts[0]) || parts[0] == "_audit.jsonl"
    else parts[0] == "memory" && Extension(parts[|parts| - 1]) == Some("md")
  }

  predicate MirrorsWorkspacePath(parts: seq<string>) {
    if parts == [] then false
    else if |parts| == 1 then HasMdExtension(parts[0])
    else if parts[0] == "memory" then Extension(parts[|parts| - 1]) == Some("md")
    else if parts[0] == "kb" || parts[0] == "skills" then true
    else parts[0] == "channels" && MirrorsChannelPath(parts[2..])
  }

  function NormalParts(cs: seq<Component>): seq<string> {
    if cs == [] then [] else (if cs[0].Normal? then [cs[0].part] else []) + NormalParts(cs[1..])
  }

  predicate DurablePath(namespace: string, path: string) {
    && (namespace == "workspace" || namespace == "chats")
    && RelativePath(path)
    && (forall c <- Components(path) :: Visible(c))
    && (namespace == "workspace" ==> MirrorsWorkspacePath(NormalParts(Components(path))))
  }

  lemma {:induction false} InnerAppend(a: seq<string>, b: seq<string>)
    ensures Inner(a + b) == Inner(a) + Inner(b)
  {
    if a == [] {
      assert a + b == b;
    } else {
      assert (a + b)[1..] == a[1..] + b;
      InnerAppend(a[1..], b);
    }
  }

  lemma {:induction false} Utf8LengthAppend(a: string, b: string)
    ensures Utf8Length(a + b) == Utf8Length(a) + Utf8Length(b)
  {
    if a == "" {
      assert a + b == b;
    } else {
      assert (a + b)[1..] == a[1..] + b;
      Utf8LengthAppend(a[1..], b);
    }
  }

  lemma DoubledSlashSplits(a: string, b: string)
    ensures Split(a + "/" + b, '/') == Split(a, '/') + Split(b, '/')
    ensures Split(a + "/" + ("/" + b), '/') == Split(a, '/') + ([""] + Split(b, '/'))
  {
    SplitAppend(a, b, '/');
    SplitAppend(a, "/" + b, '/');
    assert ("/" + b)[1..] == b;
  }

  lemma DoubledSlashComponents(a: string, b: string)
    requires a != ""
    ensures Components(a + "/" + ("/" + b)) == Components(a + "/" + b)
  {
    hide Split;
    var p, q := a + "/" + b, a + "/" + ("/" + b);
    var xs, ys := Split(a, '/'), Split(b, '/');
    DoubledSlashSplits(a, b);
    assert p[0] == a[0] == q[0] && (xs + ys)[0] == xs[0];
    assert (xs + ys)[1..] == xs[1..] + ys && (xs + ([""] + ys))[1..] == xs[1..] + ([""] + ys);
    InnerAppend(xs, ys);
    InnerAppend(xs, [""] + ys);
    InnerAppend(xs[1..], ys);
    InnerAppend(xs[1..], [""] + ys);
    assert ([""] + ys)[1..] == ys;
  }

  lemma DoubledSlashLength(a: string, b: string)
    ensures Utf8Length(a + "/" + ("/" + b)) == Utf8Length(a + "/" + b) + 1
  {
    Utf8LengthAppend(a + "/", b);
    Utf8LengthAppend(a + "/", "/" + b);
    assert ("/" + b)[1..] == b;
  }

  /**
   * The check never normalises the spelling it accepts: doubling any slash of a durable path gives
   * another durable path, with the same components, so one file can have several rows.
   */
  lemma DurableHasAliases(namespace: string, a: string, b: string)
    requires a != "" && DurablePath(namespace, a + "/" + b) && Utf8Length(a + "/" + b) < 2048
    ensures a + "/" + ("/" + b) != a + "/" + b
    ensures DurablePath(namespace, a + "/" + ("/" + b)) && Components(a + "/" + ("/" + b)) == Components(a + "/" + b)
  {
    hide MirrorsWorkspacePath, Visible, Components, Utf8Length, NormalParts;
    DoubledSlashComponents(a, b);
    DoubledSlashLength(a, b);
    assert (a + "/" + ("/" + b))[0] == a[0] == (a + "/" + b)[0];
    assert forall c <- a + "/" + ("/" + b) :: c == '/' || c in a + "/" + b;
    assert |a + "/" + ("/" + b)| == |a + "/" + b| + 1;
  }

  // ----- Durable paths told by their parts -----

  function Joined(parts: seq<string>): string
    requires parts != []
  {
    if |parts| == 1 then parts[0] else parts[0] + "/" + Joined(parts[1..])
  }

  /** The name of a file or directory, neither hidden nor a step elsewhere. */
  predicate PlainPart(part: string) {
    part != "" && '/' !in part && part[0] != '.'
  }

  lemma {:induction false} JoinedSplits(parts: seq<string>)
    requires parts != [] && forall p <- parts :: '/' !in p
    ensures Split(Joined(parts), '/') == parts
  {
    if |parts| == 1 {
      SplitAtom(parts[0], '/');
    } else {
      JoinedSplits(parts[1..]);
      SplitCons(parts[0], Joined(parts[1..]), '/');
    }
  }

  lemma {:induction false} PlainInner(parts: seq<string>)
    requires forall p <- parts :: PlainPart(p)
    ensures |Inner(parts)| == |parts| && forall i | 0 <= i < |parts| :: Inner(parts)[i] == Normal(parts[i])
    ensures NormalParts(Inner(parts)) == parts
  {
    if parts != [] {
      PlainInner(parts[1..]);
      assert parts[0] in parts && parts == [parts[0]] + parts[1..];
    }
  }

  lemma JoinedComponents(parts: seq<string>)
    requires parts != [] && forall p <- parts :: PlainPart(p)
    ensures Components(Joined(parts)) == Inner(parts) && Joined(parts) != "" && Joined(parts)[0] != '/'
  {
    JoinedSplits(parts);
    assert parts[0] in parts;
    assert Joined(parts)[0] == parts[0][0];
  }

  predicate ShortText(path: string) {
    Utf8Length(path) <= 2048 && '\0' !in path
  }

  /** A path of plain parts is durable among the chats always, and in the workspace if it is mirrored there. */
  lemma PlainPathDurableIff(namespace: string, parts: seq<string>)
    requires parts != [] && forall p <- parts :: PlainPart(p)
    ensures DurablePath(namespace, Joined(parts)) <==>
            ShortText(Joined(parts)) && (namespace == "chats" || (namespace == "workspace" && MirrorsWorkspacePath(parts)))
  {
    hide MirrorsWorkspacePath, Utf8Length, Joined, Components;
    JoinedComponents(parts);
    PlainInner(parts);
    assert forall i | 0 <= i < |parts| :: parts[i] in parts;
    assert forall c <- Inner(parts) :: Visible(c);
  }

  /** No durable path leaves its namespace or names anything hidden. */
  lemma DurableNeverEscapes(namespace: string, path: string)
    requires DurablePath(namespace, path)
    ensures namespace in ["workspace", "chats"] && path[0] != '/' && Split(path, '/')[0] != "."
    ensures forall part <- Split(path, '/') | part != "" && part != "." :: part[0] != '.'
  {
    hide MirrorsWorkspacePath, Utf8Length;
    var parts := Split(path, '/');
    forall part | part in parts && part != "" && part != "." ensures part[0] != '.' {
      InnerNames(parts, part);
    }
  }

  lemma {:induction false} InnerNames(parts: seq<string>, part: string)
    requires part in parts && part != "" && part != "."
    ensures Named(part) in Inner(parts)
  {
    if parts[0] != part {
      assert parts == [parts[0]] + parts[1..];
      InnerNames(parts[1..], part);
    }
  }

  lemma ExtensionIs(stem: string, ext: string)
    requires '.' !in ext
    ensures Extension(stem + "." + ext) == if stem == "" then None else Some(ext)
    ensures Extension(ext) == None
  {
    SplitAppend(stem, ext, '.');
    SplitAtom(ext, '.');
    if '.' !in stem {
      SplitAtom(stem, '.');
    } else {
      SplitMany(stem, '.');
    }
  }

  lemma {:induction false} SplitMany(s: string, sep: char)
    requires sep in s
    ensures |Split(s, sep)| >= 2
  {
    if s[0] != sep {
      assert s == [s[0]] + s[1..];
      SplitMany(s[1..], sep);
    }
  }

  /** What the workspace mirrors: Markdown at the top, memory notes, the knowledge base, skills, and of each channel as much as of the top. */
  lemma WorkspaceMirrors(name: string, dir: string, rest: seq<string>)
    requires rest != []
    ensures MirrorsWorkspacePath([name]) <==> HasMdExtension(name)
    ensures MirrorsWorkspacePath(["memory"] + rest) <==> Extension(rest[|rest| - 1]) == Some("md")
    ensures MirrorsWorkspacePath(["kb"] + rest) && MirrorsWorkspacePath(["skills"] + rest)
    ensures MirrorsWorkspacePath(["channels", dir, name]) <==> HasMdExtension(name) || name == "_audit.jsonl"
    ensures MirrorsWorkspacePath(["channels", dir, "memory"] + rest) <==> Extension(rest[|rest| - 1]) == Some("md")
    ensures !MirrorsWorkspacePath(["channels", dir]) && !MirrorsWorkspacePath([])
    ensures dir !in ["memory", "kb", "skills", "channels"] ==> !MirrorsWorkspacePath([dir] + rest)
    ensures name != "memory" ==> !MirrorsWorkspacePath(["channels", dir, name] + rest)
  {
    hide HasMdExtension, Extension;
    assert "memory" != "kb" && "memory" != "channels" && "kb" != "channels" && "skills" != "channels" && "skills" != "memory";
    assert ["channels", dir, name][2..] == [name] && ["channels", dir][2..] == [];
    assert (["channels", dir, "memory"] + rest)[2..] == ["memory"] + rest;
    assert (["channels", dir, name] + rest)[2..] == [name] + rest;
  }

  lemma MdNames(stem: string, ext: string)
    requires stem != "" && ext in ["md", "MD", "Md", "mD"]
    ensures HasMdExtension(stem + "." + ext)
  {
    ExtensionIs(stem, ext);
  }

  // ----- Placeholder chat bodies -----

  predicate AsciiSpace(c: char) {
    c == ' ' || c == '\t' || c == '\n' || c == '\r' || c as int == 0x0C
  }

  function TrimAscii(s: Bytes): Bytes {
    Trim(s, AsciiSpace)
  }

  /** The two loops, first from the front and then from the back. */
  method TrimAsciiWhitespace(bytes: Bytes) returns (r: Bytes)
    ensures r == TrimAscii(bytes) && Trimmed(bytes, r, AsciiSpace)
  {
    r := bytes;
    while r != "" && AsciiSpace(r[0])
      invariant TrimStart(r, AsciiSpace) == TrimStart(bytes, AsciiSpace)
      decreases |r|
    {
      r := r[1..];
    }
    while r != "" && AsciiSpace(r[|r| - 1])
      invariant TrimEnd(r, AsciiSpace) == TrimAscii(bytes)
      decreases |r|
    {
      r := r[..|r| - 1];
    }
    TrimIsTrimmed(bytes, AsciiSpace);
  }

  predicate IsTranscript(namespace: string, path: string) {
    namespace == "chats" && EndsWith(path, "/transcript.json")
  }

  predicate IsZeroByteTranscript(namespace: string, path: string, body: Bytes) {
    IsTranscript(namespace, path) && body == ""
  }

  predicate IsPlaceholder(namespace: string, path: string, body: Bytes) {
    || (IsTranscript(namespace, path) && TrimAscii(body) == "[]")
    || (namespace == "chats" && EndsWith(path, "/title.txt") && TrimAscii(body) == "New conversation")
  }

  /** `body` is `core` with white space around it. */
  ghost predicate Padded(body: Bytes, core: Bytes) {
    exists a, b :: body == a + core + b && (forall c <- a :: AsciiSpace(c)) && (forall c <- b :: AsciiSpace(c))
  }

  ghost predicate InChat(path: string, file: string) {
    exists dir :: path == dir + "/" + file
  }

  lemma InChatIff(path: string, file: string)
    ensures EndsWith(path, "/" + file) <==> InChat(path, file)
  {
    if EndsWith(path, "/" + file) {
      var dir := path[..|path| - |file| - 1];
      assert path == dir + ("/" + file) == dir + "/" + file;
    }
    forall dir | path == dir + "/" + file ensures EndsWith(path, "/" + file) {
      assert path == dir + ("/" + file);
      assert path[|dir|..] == "/" + file;
    }
  }

  lemma PaddedIff(body: Bytes, core: Bytes)
    requires core != "" && !AsciiSpace(core[0]) && !AsciiSpace(core[|core| - 1])
    ensures TrimAscii(body) == core <==> Padded(body, core)
  {
    TrimIsTrimmed(body, AsciiSpace);
    forall a, b | body == a + core + b && (forall c <- a :: AsciiSpace(c)) && (forall c <- b :: AsciiSpace(c))
      ensures TrimAscii(body) == core
    {
      TrimPadded(a, core, b, AsciiSpace);
    }
  }

  /** An empty list as a chat's transcript or the default title as its title, white space aside, and nothing else. */
  lemma PlaceholderIff(namespace: string, path: string, body: Bytes)
    ensures IsPlaceholder(namespace, path, body) <==>
            namespace == "chats" &&
            ((InChat(path, "transcript.json") && Padded(body, "[]")) || (InChat(path, "title.txt") && Padded(body, "New conversation")))
    ensures IsZeroByteTranscript(namespace, path, body) <==> namespace == "chats" && InChat(path, "transcript.json") && body == ""
  {
    assert "/" + "transcript.json" == "/transcript.json" && "/" + "title.txt" == "/title.txt";
    InChatIff(path, "transcript.json");
    InChatIff(path, "title.txt");
    PaddedIff(body, "[]");
    PaddedIff(body, "New conversation");
  }
}

/**
 * One mirrored file under concurrent ingests, deletions, reads and lazy rewraps
 * (crates/core/src/state_files.rs, crates/core/src/db/sqlite/state_files.rs).
 * Each action is one uninterrupted stretch between awaits; any interleaving is a run.
 */
module StateFiles {
  import opened Wrappers
  import opened Text
  import opened KmsContexts
  import opened KeyFiles
  import opened Envelope
  import opened StatePaths

  datatype File = File(instance: string, namespace: string, path: string)

  datatype Row = Row(owner: string, bytes: nat, body: Option<Stored>, deleted: bool)

  datatype Write = Put(owner: string, body: Bytes) | Delete(owner: string)

  /** A caller between two awaits. `at` counts the writes that had landed when it looked at the row. */
  datatype Pending =
    | Ingesting(owner: string, body: Bytes, sealed: Stored, at: nat)
    | Fetched(row: Row, at: nat)
    | Rewrapping(row: Row, next: Stored, at: nat)

  /** `log` is the history of accepted writes; the source keeps only the row. */
  datatype State = State(disk: Disk, row: Option<Row>, pending: map<nat, Pending>, log: seq<Write>)

  datatype Action =
    | Check(pid: nat, owner: string, body: Bytes)
    | Upsert(pid: nat)
    | Tombstone(who: string)
    | Fetch(pid: nat)
    | Read(pid: nat)
    | Rewrap(pid: nat)
    | Abandon(pid: nat)
    | Keys(op: DirOp)

  predicate HasDotDot(s: string) {
    exists i | 0 <= i < |s| - 1 :: s[i] == '.' && s[i + 1] == '.'
  }

  predicate ValidInstanceId(id: string) {
    id != "" && '/' !in id && '\\' !in id && !HasDotDot(id)
  }

  /** An instance id names one directory entry: it holds no slash and no double dot, and single dots are fine. */
  lemma InstanceIds(a: string, b: string)
    ensures !ValidInstanceId(a + ".." + b) && !ValidInstanceId(a + "/" + b) && !ValidInstanceId(a + "\\" + b) && !ValidInstanceId("")
    ensures a != "" && (forall c <- a + b :: c !in "./\\") ==> ValidInstanceId(a) && ValidInstanceId(a + "." + b)
  {
    var s := a + ".." + b;
    assert s[|a|] == '.' && s[|a| + 1] == '.';
    assert (a + "/" + b)[|a|] == '/' && (a + "\\" + b)[|a|] == '\\';
    if a != "" && (forall c <- a + b :: c !in "./\\") {
      var t := a + "." + b;
      assert forall i | 0 <= i < |a| :: a[i] in a + b && t[i] == a[i];
      assert forall i | 0 <= i < |b| :: b[i] in a + b && t[|a| + 1 + i] == b[i];
      assert forall i | 0 <= i < |t| :: t[i] == '.' ==> i == |a|;
    }
  }

  predicate ValidFile(f: File) {
    ValidInstanceId(f.instance) && DurablePath(f.namespace, f.path)
  }

  function ContextOf(f: File, owner: string): Context {
    Context(StateFile, Some(owner), Some(f.instance), Some(f.namespace + ":" + f.path))
  }

  predicate LongerLive(row: Option<Row>, size: nat) {
    row.Some? && !row.value.deleted && row.value.body.Some? && row.value.bytes > size
  }

  predicate Placeholder(f: File, body: Bytes) {
    IsPlaceholder(f.namespace, f.path, body)
  }

  predicate Preserves(f: File, row: Option<Row>, body: Bytes) {
    Placeholder(f, body) && LongerLive(row, |body|)
  }

  /** The new disk, what the caller gets, and the rewrap to attempt later. */
  function ReadBody(f: File, d: Disk, row: Row): (Disk, Result<Option<Term>, EnvelopeError>, Option<Stored>) {
    if row.deleted || row.body.None? then (d, Ok(None), None)
    else if !Armored(row.body.value) && !IsV2(row.body.value) then (d, Ok(None), None) else
    var ctx := ContextOf(f, row.owner);
    var (d1, got) := Open(d, ctx, row.body.value);
    if got.Err? then (d1, Err(got.error), None)
    else if !got.value.needsRewrap then (d1, Ok(Some(got.value.plaintext)), None) else
    var (d2, next) := Seal(d1, ctx, got.value.plaintext);
    (d2, Ok(Some(got.value.plaintext)), if next.Ok? then Some(next.value) else None)
  }

  function Next(f: File, s: State, a: Action): State {
    match a
    case Check(pid, owner, body) =>
      if pid in s.pending || !ValidFile(f) || IsZeroByteTranscript(f.namespace, f.path, body)
         || Preserves(f, s.row, body) then s else
      var (d, sealed) := Seal(s.disk, ContextOf(f, owner), Bytes(body));
      if sealed.Err? then s.(disk := d)
      else s.(disk := d, pending := s.pending[pid := Ingesting(owner, body, sealed.value, |s.log|)])
    case Upsert(pid) =>
      if pid !in s.pending || !s.pending[pid].Ingesting? then s else
      var p := s.pending[pid];
      s.(row := Some(Row(p.owner, |p.body|, Some(p.sealed), false)),
         pending := s.pending - {pid},
         log := s.log + [Put(p.owner, p.body)])
    case Tombstone(who) =>
      if !ValidFile(f) then s else s.(row := Some(Row(who, 0, None, true)), log := s.log + [Delete(who)])
    case Fetch(pid) =>
      if pid in s.pending || s.row.None? then s
      else s.(pending := s.pending[pid := Fetched(s.row.value, |s.log|)])
    case Read(pid) =>
      if pid !in s.pending || !s.pending[pid].Fetched? then s else
      var p := s.pending[pid];
      var (d, _, next) := ReadBody(f, s.disk, p.row);
      s.(disk := d,
         pending := if next.Some? then s.pending[pid := Rewrapping(p.row, next.value, p.at)] else s.pending - {pid})
    case Rewrap(pid) =>
      if pid !in s.pending || !s.pending[pid].Rewrapping? then s else
      var p := s.pending[pid];
      s.(row := if s.row.Some? && s.row.value.body.Some? && s.row.value.body == p.row.body
                then Some(s.row.value.(body := Some(p.next))) else s.row,
         pending := s.pending - {pid})
    case Abandon(pid) => s.(pending := s.pending - {pid})
    case Keys(op) => s.(disk := Apply(s.disk, op))
  }

  // ----- What every reachable state satisfies -----

  /** `s` is a sealed body for `owner` from which exactly `body` can be recovered. */
  ghost predicate Holds(f: File, d: Disk, owner: string, s: Stored, body: Bytes) {
    KeysKnown(d, s) && Recovers(d, ContextOf(f, owner), s) == Some(Bytes(body))
  }

  /** The row is what the last write of `log` says: its plaintext, its length, its owner. */
  ghost predicate RowIs(f: File, d: Disk, row: Option<Row>, log: seq<Write>) {
    if log == [] then row.None? else
    row.Some? &&
    match log[|log| - 1]
    case Put(owner, body) =>
      && row.value.owner == owner && row.value.bytes == |body| && !row.value.deleted
      && row.value.body.Some? && Holds(f, d, owner, row.value.body.value, body)
    case Delete(owner) => row.value == Row(owner, 0, None, true)
  }

  /** A body from before key ids existed cannot reappear under another owner. */
  ghost predicate LegacyStays(now: Option<Row>, seen: Row) {
    seen.body.Some? && !IsV2(seen.body.value) && now.Some? && now.value.body == seen.body ==> now.value.owner == seen.owner
  }

  ghost predicate SeenOk(f: File, s: State, row: Row, at: nat) {
    0 < at <= |s.log| && RowIs(f, s.disk, Some(row), s.log[..at]) && LegacyStays(s.row, row)
  }

  ghost predicate PendingOk(f: File, s: State, p: Pending) {
    match p
    case Ingesting(owner, body, sealed, at) =>
      && at <= |s.log| && IsV2(sealed) && Holds(f, s.disk, owner, sealed, body)
      && (at == |s.log| ==> !Preserves(f, s.row, body))
    case Fetched(row, at) => SeenOk(f, s, row, at)
    case Rewrapping(row, next, at) =>
      && SeenOk(f, s, row, at) && row.body.Some? && s.log[at - 1].Put?
      && IsV2(next) && Holds(f, s.disk, row.owner, next, s.log[at - 1].body)
  }

  ghost predicate Inv(f: File, s: State) {
    && WellKeyed(s.disk)
    && RowIs(f, s.disk, s.row, s.log)
    && forall pid | pid in s.pending :: PendingOk(f, s, s.pending[pid])
  }

  lemma RowIsLater(f: File, d: Disk, e: Disk, row: Option<Row>, log: seq<Write>)
    requires Grows(d, e) && RowIs(f, d, row, log)
    ensures RowIs(f, e, row, log)
  {
    hide Recovers, KeysKnown, Grows;
    if log != [] && log[|log| - 1].Put? {
      RecoversLater(d, e, ContextOf(f, row.value.owner), row.value.body.value);
    }
  }

  lemma PendingOkLater(f: File, s: State, e: Disk, p: Pending)
    requires Grows(s.disk, e) && PendingOk(f, s, p)
    ensures PendingOk(f, s.(disk := e), p)
  {
    hide Recovers, KeysKnown, Grows, IsV2, Preserves;
    match p {
      case Ingesting(owner, body, sealed, at) => RecoversLater(s.disk, e, ContextOf(f, owner), sealed);
      case Fetched(row, at) => RowIsLater(f, s.disk, e, Some(row), s.log[..at]);
      case Rewrapping(row, next, at) =>
        RowIsLater(f, s.disk, e, Some(row), s.log[..at]);
        RecoversLater(s.disk, e, ContextOf(f, row.owner), next);
    }
  }

  /** Growing the key files disturbs nothing. */
  lemma InvLater(f: File, s: State, e: Disk)
    requires Inv(f, s) && Grows(s.disk, e) && WellKeyed(e)
    ensures Inv(f, s.(disk := e))
  {
    hide RowIs, PendingOk, Grows, WellKeyed;
    RowIsLater(f, s.disk, e, s.row, s.log);
    forall pid | pid in s.pending ensures PendingOk(f, s.(disk := e), s.pending[pid]) {
      PendingOkLater(f, s, e, s.pending[pid]);
    }
  }

  /** What sealing hands to a waiting write. */
  lemma SealedHolds(f: File, d: Disk, owner: string, body: Bytes)
    requires WellKeyed(d) && Seal(d, ContextOf(f, owner), Bytes(body)).1.Ok?
    ensures var (e, s) := Seal(d, ContextOf(f, owner), Bytes(body));
            WellKeyed(e) && Grows(d, e) && IsV2(s.value) && Holds(f, e, owner, s.value, body)
  {
    var ctx := ContextOf(f, owner);
    SealExtends(d, ctx, Bytes(body));
    SealedIsActive(d, ctx, Bytes(body));
    SealedShape(d, ctx, Bytes(body));
    OpensIffRecovers(Seal(d, ctx, Bytes(body)).0, ctx, Seal(d, ctx, Bytes(body)).1.value);
  }

  lemma CheckKeepsInv(f: File, s: State, pid: nat, owner: string, body: Bytes)
    requires Inv(f, s)
    ensures Inv(f, Next(f, s, Check(pid, owner, body)))
  {
    hide Seal, Recovers, KeysKnown, Grows, WellKeyed, Preserves, RowIs, ValidFile, IsZeroByteTranscript;
    var (e, sealed) := Seal(s.disk, ContextOf(f, owner), Bytes(body));
    SealExtends(s.disk, ContextOf(f, owner), Bytes(body));
    InvLater(f, s, e);
    if sealed.Ok? {
      SealedHolds(f, s.disk, owner, body);
    }
  }

  lemma UpsertKeepsInv(f: File, s: State, pid: nat)
    requires Inv(f, s)
    ensures Inv(f, Next(f, s, Upsert(pid)))
  {
    hide Recovers, KeysKnown, WellKeyed, Preserves, ValidFile;
    if pid in s.pending && s.pending[pid].Ingesting? {
      var t := Next(f, s, Upsert(pid));
      forall q | q in t.pending ensures PendingOk(f, t, t.pending[q]) {
        LogGrew(f, s, t, t.pending[q]);
      }
    }
  }

  /** Pending callers survive a write by somebody else. */
  lemma LogGrew(f: File, s: State, t: State, p: Pending)
    requires PendingOk(f, s, p)
    requires t.disk == s.disk && |t.log| == |s.log| + 1 && t.log[..|s.log|] == s.log
    requires t.row.Some? && (t.row.value.body.Some? ==> IsV2(t.row.value.body.value))
    ensures PendingOk(f, t, p)
  {
    hide Recovers, KeysKnown, WellKeyed, Preserves;
    if !p.Ingesting? {
      assert t.log[..p.at] == s.log[..p.at];
    }
  }

  lemma TombstoneKeepsInv(f: File, s: State, who: string)
    requires Inv(f, s)
    ensures Inv(f, Next(f, s, Tombstone(who)))
  {
    hide Recovers, KeysKnown, WellKeyed, Preserves, ValidFile;
    if ValidFile(f) {
      var t := Next(f, s, Tombstone(who));
      forall q | q in t.pending ensures PendingOk(f, t, t.pending[q]) {
        LogGrew(f, s, t, t.pending[q]);
      }
    }
  }

  lemma FetchKeepsInv(f: File, s: State, pid: nat)
    requires Inv(f, s)
    ensures Inv(f, Next(f, s, Fetch(pid)))
  {
    hide Recovers, KeysKnown, WellKeyed, Preserves, ValidFile;
    assert s.log[..|s.log|] == s.log;
  }

  /** The answer a read owes when `w` was the last write its snapshot saw. */
  predicate Answers(f: File, d: Disk, row: Row, w: Write, r: Result<Option<Term>, EnvelopeError>) {
    match w
    case Delete(_) => r == Ok(None)
    case Put(owner, body) =>
      && row.body.Some?
      && if IsV2(row.body.value) && ActiveKeyMeta(d, ContextOf(f, owner)).Err? then r.Err? else r == Ok(Some(Bytes(body)))
  }

  /** A row that is what the last write says answers a read with it. */
  lemma RowReads(f: File, d: Disk, row: Row, log: seq<Write>)
    requires log != [] && RowIs(f, d, Some(row), log)
    ensures Answers(f, d, row, log[|log| - 1], ReadBody(f, d, row).1)
  {
    hide KeysKnown, Seal, Open, Recovers, ActiveKeyMeta, IsV2;
    if log[|log| - 1].Put? {
      OpensIffRecovers(d, ContextOf(f, row.owner), row.body.value);
      RecoverableIsSealed(d, ContextOf(f, row.owner), row.body.value);
    }
  }

  /** A read asks for a rewrap exactly when it got a body that is no envelope under the active key, and could seal it. */
  lemma ReadRewrapsIff(f: File, d: Disk, row: Row)
    requires ReadBody(f, d, row).1.Ok? && ReadBody(f, d, row).1.value.Some?
    ensures ReadBody(f, d, row).2.Some? <==>
            !Current(d, ContextOf(f, row.owner), row.body.value) && SealOk(d, ContextOf(f, row.owner))
    ensures ReadBody(f, d, row).2.Some? ==>
              Current(ReadBody(f, d, row).0, ContextOf(f, row.owner), ReadBody(f, d, row).2.value)
  {
    hide Open, ActiveVersion, IsV2, Armored;
    var ctx := ContextOf(f, row.owner);
    var (d1, got) := Open(d, ctx, row.body.value);
    RewrapAskedIff(d, ctx, row.body.value);
    OpenExtends(d, ctx, row.body.value);
    SealAgrees(d, d1, ctx);
    if Seal(d1, ctx, got.value.plaintext).1.Ok? {
      SealedIsCurrent(d1, ctx, got.value.plaintext);
    }
  }

  /** A read returns exactly what the snapshot's last write said, or fails on an unreadable active version. */
  lemma ReadReturnsWhatWasWritten(f: File, s: State, pid: nat)
    requires Inv(f, s) && pid in s.pending && s.pending[pid].Fetched?
    ensures var p := s.pending[pid];
            0 < p.at <= |s.log| && Answers(f, s.disk, p.row, s.log[p.at - 1], ReadBody(f, s.disk, p.row).1)
  {
    hide RowIs, WellKeyed, Preserves, ValidFile, ReadBody, Answers;
    var p := s.pending[pid];
    assert PendingOk(f, s, p);
    assert s.log[..p.at][p.at - 1] == s.log[p.at - 1];
    RowReads(f, s.disk, p.row, s.log[..p.at]);
  }

  lemma RecoverableIsSealed(d: Disk, ctx: Context, s: Stored)
    requires Recovers(d, ctx, s).Some?
    ensures IsV2(s) || Armored(s)
  {
  }

  lemma ReadKeepsInv(f: File, s: State, pid: nat)
    requires Inv(f, s)
    ensures Inv(f, Next(f, s, Read(pid)))
  {
    hide KeysKnown, WellKeyed, Preserves, ValidFile, Seal, Open, Recovers, Grows, IsV2, RowIs;
    if pid in s.pending && s.pending[pid].Fetched? {
      var p := s.pending[pid];
      assert PendingOk(f, s, p);
      var (d, _, next) := ReadBody(f, s.disk, p.row);
      ReadGrows(f, s.disk, p.row);
      InvLater(f, s, d);
      if next.Some? {
        RewrapHolds(f, s, pid);
      }
    }
  }

  lemma ReadGrows(f: File, d: Disk, row: Row)
    requires WellKeyed(d)
    ensures Grows(d, ReadBody(f, d, row).0) && WellKeyed(ReadBody(f, d, row).0)
  {
    hide WellKeyed, Seal, Open, IsV2, ActiveVersion;
    if row.body.Some? {
      var ctx := ContextOf(f, row.owner);
      var (d1, got) := Open(d, ctx, row.body.value);
      OpenExtends(d, ctx, row.body.value);
      if got.Ok? {
        SealExtends(d1, ctx, got.value.plaintext);
        ExtendsTransitive(d, d1, Seal(d1, ctx, got.value.plaintext).0);
      }
    }
  }

  /** The rewrap a read leaves behind holds the plaintext it read. */
  lemma RewrapHolds(f: File, s: State, pid: nat)
    requires Inv(f, s) && pid in s.pending && s.pending[pid].Fetched?
    requires ReadBody(f, s.disk, s.pending[pid].row).2.Some?
    ensures var p := s.pending[pid];
            var (d, _, next) := ReadBody(f, s.disk, p.row);
            && s.log[p.at - 1].Put? && p.row.body.Some?
            && IsV2(next.value) && Holds(f, d, p.row.owner, next.value, s.log[p.at - 1].body)
  {
    hide KeysKnown, WellKeyed, Preserves, ValidFile, Seal, Open, Recovers, Grows, IsV2, ActiveKeyMeta;
    var p := s.pending[pid];
    assert PendingOk(f, s, p);
    ReadReturnsWhatWasWritten(f, s, pid);
    var ctx := ContextOf(f, p.row.owner);
    OpenExtends(s.disk, ctx, p.row.body.value);
    SealedHolds(f, Open(s.disk, ctx, p.row.body.value).0, p.row.owner, s.log[p.at - 1].body);
  }

  /** A compare-and-swap that matches finds the row it was computed from, under the same owner. */
  lemma RewrapMatchesOwner(f: File, s: State, pid: nat)
    requires Inv(f, s) && pid in s.pending && s.pending[pid].Rewrapping?
    requires s.row.Some? && s.row.value.body == s.pending[pid].row.body
    ensures var p := s.pending[pid];
            && s.log[|s.log| - 1].Put? && s.log[|s.log| - 1].body == s.log[p.at - 1].body
            && s.row.value.owner == p.row.owner
  {
    hide KeysKnown, WellKeyed, Preserves, Recovers, IsV2;
    var p := s.pending[pid];
    assert PendingOk(f, s, p);
    assert s.log[..p.at][p.at - 1] == s.log[p.at - 1];
    if IsV2(p.row.body.value) {
      OneContext(f, s.disk, s.row.value.owner, p.row.owner, p.row.body.value);
    }
  }

  /** A version-2 body is recoverable for one owner only. */
  lemma OneContext(f: File, d: Disk, a: string, b: string, s: Stored)
    requires IsV2(s) && Recovers(d, ContextOf(f, a), s).Some? && Recovers(d, ContextOf(f, b), s).Some?
    ensures a == b
  {
    hide ForKeyId;
  }

  lemma RewrapKeepsInv(f: File, s: State, pid: nat)
    requires Inv(f, s)
    ensures Inv(f, Next(f, s, Rewrap(pid)))
  {
    hide Recovers, KeysKnown, WellKeyed, ValidFile, Placeholder;
    if pid in s.pending && s.pending[pid].Rewrapping? && s.row.Some? && s.row.value.body == s.pending[pid].row.body {
      assert PendingOk(f, s, s.pending[pid]);
      RewrapMatchesOwner(f, s, pid);
    }
  }

  lemma KeysKeepInv(f: File, s: State, op: DirOp)
    requires Inv(f, s) && !op.Forget?
    ensures Inv(f, Next(f, s, Keys(op)))
  {
    hide Inv, Apply, WellKeyed, Grows;
    InvKeyed(f, s);
    ApplyGrows(s.disk, op);
    InvLater(f, s, Apply(s.disk, op));
  }

  lemma InvKeyed(f: File, s: State)
    requires Inv(f, s)
    ensures WellKeyed(s.disk)
  {
  }

  /** Nothing but an erasure takes a key file away. */
  lemma ApplyGrows(d: Disk, op: DirOp)
    requires WellKeyed(d) && !op.Forget?
    ensures Grows(d, Apply(d, op)) && WellKeyed(Apply(d, op))
  {
    hide ForUser, ForContext, ActiveVersion;
    match op {
      case LookupUser(u) => LookupsExtend(d, u, Context(SystemSecret, None, None, None));
      case LookupContext(c) => LookupsExtend(d, "", c);
      case _ =>
    }
  }

  lemma StepKeepsInv(f: File, s: State, a: Action)
    requires Inv(f, s) && !(a.Keys? && a.op.Forget?)
    ensures Inv(f, Next(f, s, a))
  {
    match a
    case Check(pid, owner, body) => CheckKeepsInv(f, s, pid, owner, body);
    case Upsert(pid) => UpsertKeepsInv(f, s, pid);
    case Tombstone(who) => TombstoneKeepsInv(f, s, who);
    case Fetch(pid) => FetchKeepsInv(f, s, pid);
    case Read(pid) => ReadKeepsInv(f, s, pid);
    case Rewrap(pid) => RewrapKeepsInv(f, s, pid);
    case Keys(op) => KeysKeepInv(f, s, op);
    case Abandon(pid) => AbandonKeepsInv(f, s, pid);
  }

  lemma AbandonKeepsInv(f: File, s: State, pid: nat)
    requires Inv(f, s)
    ensures Inv(f, Next(f, s, Abandon(pid)))
  {
    hide Recovers, KeysKnown, WellKeyed, Preserves;
  }

  // ----- What a caller alone achieves -----

  /** The checks an ingest must pass. */
  predicate Ingestible(f: File, s: State, owner: string, body: Bytes) {
    && ValidInstanceId(f.instance) && DurablePath(f.namespace, f.path) && !IsZeroByteTranscript(f.namespace, f.path, body)
    && !(IsPlaceholder(f.namespace, f.path, body) && s.row.Some? && !s.row.value.deleted && s.row.value.body.Some? && s.row.value.bytes > |body|)
    && SealOk(s.disk, ContextOf(f, owner))
  }

  /** An ingest nobody overtakes writes its body if and only if it passes the checks, and otherwise nothing. */
  lemma IngestLands(f: File, s: State, pid: nat, owner: string, body: Bytes)
    requires WellKeyed(s.disk) && pid !in s.pending
    ensures var t := Next(f, Next(f, s, Check(pid, owner, body)), Upsert(pid));
            && t.pending == s.pending
            && (Ingestible(f, s, owner, body) ==> t.log == s.log + [Put(owner, body)] && RowIs(f, t.disk, t.row, t.log))
            && (!Ingestible(f, s, owner, body) ==> t.log == s.log && t.row == s.row)
  {
    hide ForContext, IsPlaceholder, DurablePath, ValidInstanceId, IsZeroByteTranscript, Recovers;
    if Ingestible(f, s, owner, body) {
      SealedHolds(f, s.disk, owner, body);
      var t := Next(f, s, Check(pid, owner, body));
      assert t.pending - {pid} == s.pending;
    }
  }

  /** A deletion lands on every valid file, whatever the row holds. */
  lemma TombstoneLands(f: File, s: State, who: string)
    ensures var t := Next(f, s, Tombstone(who));
            if ValidInstanceId(f.instance) && DurablePath(f.namespace, f.path)
            then t.log == s.log + [Delete(who)] && RowIs(f, t.disk, t.row, t.log) else t == s
  {
    hide DurablePath, ValidInstanceId;
  }

  /** A read nobody overtakes leaves a body that can be sealed under its active key, and what it reads as is unchanged. */
  lemma LazyRewrapLands(f: File, s: State, pid: nat)
    requires Inv(f, s) && pid !in s.pending && s.log != [] && s.log[|s.log| - 1].Put?
    requires ReadBody(f, s.disk, s.row.value).1.Ok? && SealOk(s.disk, ContextOf(f, s.row.value.owner))
    ensures var t := Next(f, Next(f, Next(f, s, Fetch(pid)), Read(pid)), Rewrap(pid));
            && t.log == s.log && t.pending == s.pending && RowIs(f, t.disk, t.row, t.log)
            && Current(t.disk, ContextOf(f, s.row.value.owner), t.row.value.body.value)
  {
    hide ReadBody, Holds, WellKeyed, Preserves, ValidFile, SealOk, Current, Answers;
    var row := s.row.value;
    RowReads(f, s.disk, row, s.log);
    var s1 := Next(f, s, Fetch(pid));
    FetchKeepsInv(f, s, pid);
    ReadKeepsInv(f, s1, pid);
    var s2 := Next(f, s1, Read(pid));
    RewrapKeepsInv(f, s2, pid);
    StepReads(f, s, row);
    assert s1.pending - {pid} == s.pending;
    assert s2.pending - {pid} == s.pending;
  }

  lemma StepReads(f: File, s: State, row: Row)
    requires Inv(f, s) && s.row == Some(row) && s.log != [] && s.log[|s.log| - 1].Put?
    requires ReadBody(f, s.disk, row).1.Ok? && SealOk(s.disk, ContextOf(f, row.owner))
    ensures row.body.Some?
    ensures var (d, _, next) := ReadBody(f, s.disk, row);
            Current(d, ContextOf(f, row.owner), if next.Some? then next.value else row.body.value)
  {
    hide Holds, Preserves, ValidFile, SealOk, ReadBody, Current, WellKeyed;
    RowReads(f, s.disk, row, s.log);
    ReadRewrapsIff(f, s.disk, row);
    CurrentLater(f, s.disk, row);
  }

  lemma CurrentLater(f: File, d: Disk, row: Row)
    requires row.body.Some? && WellKeyed(d)
    ensures var ctx := ContextOf(f, row.owner);
            Current(d, ctx, row.body.value) ==> Current(ReadBody(f, d, row).0, ctx, row.body.value)
  {
    hide WellKeyed, Seal, Open, IsV2, ActiveVersion;
    var ctx := ContextOf(f, row.owner);
    var (d1, got) := Open(d, ctx, row.body.value);
    OpenExtends(d, ctx, row.body.value);
    if got.Ok? {
      SealExtends(d1, ctx, got.value.plaintext);
    }
  }

  /** A file nobody has written, with any well-keyed directory. */
  lemma UnwrittenIsSound(f: File, d: Disk)
    requires WellKeyed(d)
    ensures Inv(f, State(d, None, map[], [])) && KeepsLonger(f, [])
  {
  }

  function After(f: File, s: State, actions: seq<Action>): State
    decreases |actions|
  {
    if actions == [] then s else After(f, Next(f, s, actions[0]), actions[1..])
  }

  /**
   * Whatever interleaves, the row holds exactly the last accepted write: its plaintext, recoverable
   * under the row's own owner, and its length; or nothing, after a deletion.
   */
  lemma {:induction false} EveryRunKeepsTheLastWrite(f: File, s: State, actions: seq<Action>)
    requires Inv(f, s)
    requires forall a <- actions :: !(a.Keys? && a.op.Forget?)
    ensures Inv(f, After(f, s, actions))
    decreases |actions|
  {
    if actions != [] {
      StepKeepsInv(f, s, actions[0]);
      EveryRunKeepsTheLastWrite(f, Next(f, s, actions[0]), actions[1..]);
    }
  }

  // ----- Placeholders -----

  /** This upsert would replace a longer live body by a placeholder. */
  predicate Clobbers(f: File, s: State, pid: nat) {
    pid in s.pending && s.pending[pid].Ingesting? && Preserves(f, s.row, s.pending[pid].body)
  }

  /** Another write landed between this ingest's check and its upsert. */
  predicate Overtaken(s: State, pid: nat) {
    pid in s.pending && s.pending[pid].Ingesting? && s.pending[pid].at < |s.log|
  }

  /** A placeholder was overtaken, and the write that landed last holds a longer body. */
  predicate OvertakenByLonger(f: File, s: State, pid: nat) {
    && Overtaken(s, pid) && Placeholder(f, s.pending[pid].body)
    && s.log[|s.log| - 1].Put? && |s.log[|s.log| - 1].body| > |s.pending[pid].body|
  }

  /** No accepted placeholder directly follows a longer body. */
  ghost predicate KeepsLonger(f: File, log: seq<Write>) {
    forall i | 0 < i < |log| && log[i].Put? && log[i - 1].Put? && Placeholder(f, log[i].body) ::
      |log[i - 1].body| <= |log[i].body|
  }

  /** No upsert of the run is by a placeholder that a longer body overtook. */
  ghost predicate NeverOvertaken(f: File, s: State, actions: seq<Action>)
    decreases |actions|
  {
    actions == [] ||
    (!(actions[0].Upsert? && OvertakenByLonger(f, s, actions[0].pid)) && NeverOvertaken(f, Next(f, s, actions[0]), actions[1..]))
  }

  /** A step either leaves the history alone or adds one write to it. */
  lemma LogGrows(f: File, s: State, a: Action)
    ensures s.log <= Next(f, s, a).log && |Next(f, s, a).log| <= |s.log| + 1
    ensures !a.Upsert? && !a.Tombstone? ==> Next(f, s, a).log == s.log
  {
    hide ValidFile, Seal, ReadBody, Placeholder, Apply;
  }

  lemma StepKeepsLongerIff(f: File, s: State, a: Action)
    requires Inv(f, s) && KeepsLonger(f, s.log)
    ensures KeepsLonger(f, Next(f, s, a).log) <==> !(a.Upsert? && OvertakenByLonger(f, s, a.pid))
  {
    hide Recovers, KeysKnown, WellKeyed, ValidFile, Seal, ReadBody, Placeholder, Apply;
    LogGrows(f, s, a);
    if a.Upsert? && a.pid in s.pending && s.pending[a.pid].Ingesting? {
      assert PendingOk(f, s, s.pending[a.pid]);
      UpsertKeepsLongerIff(f, s, a.pid);
    }
  }

  lemma UpsertKeepsLongerIff(f: File, s: State, pid: nat)
    requires Inv(f, s) && KeepsLonger(f, s.log) && pid in s.pending && s.pending[pid].Ingesting?
    ensures KeepsLonger(f, s.log + [Put(s.pending[pid].owner, s.pending[pid].body)]) <==> !OvertakenByLonger(f, s, pid)
  {
    hide Recovers, KeysKnown, WellKeyed, Placeholder;
    var p := s.pending[pid];
    assert PendingOk(f, s, p);
    var log := s.log + [Put(p.owner, p.body)];
    assert forall i | 0 <= i < |s.log| :: log[i] == s.log[i];
    if OvertakenByLonger(f, s, pid) {
      assert log[|s.log|] == Put(p.owner, p.body) && log[|s.log| - 1].Put?;
    }
  }

  /** A clobbered body stays in the history. */
  lemma {:induction false} LossIsFinal(f: File, s: State, actions: seq<Action>)
    requires !KeepsLonger(f, s.log)
    ensures !KeepsLonger(f, After(f, s, actions).log)
    decreases |actions|
  {
    hide Next, Placeholder;
    if actions != [] {
      var t := Next(f, s, actions[0]);
      LogGrows(f, s, actions[0]);
      var i :| 0 < i < |s.log| && s.log[i].Put? && s.log[i - 1].Put? && Placeholder(f, s.log[i].body) && |s.log[i - 1].body| > |s.log[i].body|;
      assert t.log[i] == s.log[i] && t.log[i - 1] == s.log[i - 1];
      LossIsFinal(f, t, actions[1..]);
    }
  }

  /**
   * Over any interleaving, no placeholder replaces a longer live body exactly when no placeholder is
   * written after a longer body overtook it. Every other overlap of ingests is harmless.
   */
  lemma {:induction false} PlaceholdersClobberIff(f: File, s: State, actions: seq<Action>)
    requires Inv(f, s) && KeepsLonger(f, s.log)
    requires forall a <- actions :: !(a.Keys? && a.op.Forget?)
    ensures KeepsLonger(f, After(f, s, actions).log) <==> NeverOvertaken(f, s, actions)
    decreases |actions|
  {
    hide Next, Inv, KeepsLonger, OvertakenByLonger;
    if actions != [] {
      var t := Next(f, s, actions[0]);
      StepKeepsInv(f, s, actions[0]);
      StepKeepsLongerIff(f, s, actions[0]);
      if KeepsLonger(f, t.log) {
        PlaceholdersClobberIff(f, t, actions[1..]);
      } else {
        LossIsFinal(f, t, actions[1..]);
      }
    }
  }

  /** From any state where a placeholder has passed its check, any longer body another caller can seal is clobbered by it. */
  lemma OvertakenPlaceholderClobbers(f: File, s: State, pid: nat, other: nat, owner: string, body: Bytes)
    requires ValidFile(f) && pid in s.pending && s.pending[pid].Ingesting? && Placeholder(f, s.pending[pid].body)
    requires other !in s.pending && |s.pending[pid].body| < |body| && !Placeholder(f, body)
    requires SealOk(s.disk, ContextOf(f, owner)) && s.pending[pid].at <= |s.log|
    ensures var t := After(f, s, [Check(other, owner, body), Upsert(other)]);
            && OvertakenByLonger(f, t, pid) && Clobbers(f, t, pid)
            && Next(f, t, Upsert(pid)).log == s.log + [Put(owner, body), Put(s.pending[pid].owner, s.pending[pid].body)]
  {
    hide Placeholder, ValidFile, ForContext;
    var a, b := Check(other, owner, body), Upsert(other);
    var s1 := Next(f, s, a);
    assert s1.pending[other].Ingesting?;
    assert After(f, s, [a, b]) == After(f, s1, [a, b][1..]) && [a, b][1..] == [b];
    assert After(f, s1, [b]) == After(f, Next(f, s1, b), [b][1..]) && [b][1..] == [];
  }

  // ----- The loss is reachable -----

  const OWNER := "system"
  const CHAT := File("i", "chats", "c" + "/transcript.json")
  const EMPTY_CHAT: Bytes := "[]"
  const REAL_CHAT: Bytes := "[1]"

  lemma ChatComponents()
    ensures Components(CHAT.path) == [Normal("c"), Normal("transcript.json")]
  {
    hide Split;
    var parts := ["c", "transcript.json"];
    assert CHAT.path == "c" + "/" + "transcript.json";
    SplitCons("c", "transcript.json", '/');
    SplitAtom("transcript.json", '/');
    assert Split(CHAT.path, '/') == parts;
    assert parts[1..] == ["transcript.json"] && parts[1..][1..] == [];
    assert Inner(parts[1..]) == [Normal("transcript.json")];
  }

  lemma {:induction false} Utf8Bound(s: string)
    ensures Utf8Length(s) <= 4 * |s|
  {
    if s != "" {
      Utf8Bound(s[1..]);
    }
  }

  lemma ChatIsDurable()
    ensures ValidFile(CHAT)
  {
    hide Components, Utf8Length, Split;
    ChatComponents();
    Utf8Bound(CHAT.path);
    assert |CHAT.path| == 17;
    assert Visible(Normal("c")) && Visible(Normal("transcript.json"));
  }

  lemma ChatPlaceholders()
    ensures Placeholder(CHAT, EMPTY_CHAT) && !Placeholder(CHAT, REAL_CHAT)
    ensures !IsZeroByteTranscript(CHAT.namespace, CHAT.path, EMPTY_CHAT)
  {
    assert TrimAscii(EMPTY_CHAT) == "[]" && TrimAscii(REAL_CHAT) == "[1]";
    assert CHAT.path[|CHAT.path| - 16..] == "/transcript.json";
  }

  lemma EmptyDirectorySeals()
    ensures var d := Disk(map[], map[], 0); WellKeyed(d) && SealOk(d, ContextOf(CHAT, OWNER))
  {
    hide ValidKeyId;
    var ctx := ContextOf(CHAT, OWNER);
    assert ValidUserId(OWNER);
    ScopedKeyIdExists(ctx);
    SealSucceeds(Disk(map[], map[], 0), ctx);
  }

  /** A new conversation's empty transcript, checked first and written last, replaces the real one. */
  lemma ClobberIsReachable()
    ensures exists actions :: !KeepsLonger(CHAT, After(CHAT, State(Disk(map[], map[], 0), None, map[], []), actions).log)
  {
    hide ValidFile, Placeholder, ForContext, KeepsLonger, IsZeroByteTranscript, After, ContextOf;
    var s := State(Disk(map[], map[], 0), None, map[], []);
    ChatIsDurable();
    ChatPlaceholders();
    EmptyDirectorySeals();
    var check := Check(0, OWNER, EMPTY_CHAT);
    var s1 := Next(CHAT, s, check);
    assert s1.pending[0].Ingesting? && s1.pending[0].body == EMPTY_CHAT && s1.pending[0].at == 0 && s1.log == [];
    var ctx := ContextOf(CHAT, OWNER);
    SealExtends(s.disk, ctx, Bytes(EMPTY_CHAT));
    SealAgrees(s.disk, s1.disk, ctx);
    OvertakenPlaceholderClobbers(CHAT, s1, 0, 1, OWNER, REAL_CHAT);
    RunsOn(s, check, [Check(1, OWNER, REAL_CHAT), Upsert(1)], Upsert(0));
    LongerLost(CHAT, OWNER);
  }

  lemma LongerLost(f: File, owner: string)
    requires Placeholder(f, EMPTY_CHAT)
    ensures !KeepsLonger(f, [] + [Put(owner, REAL_CHAT), Put(owner, EMPTY_CHAT)])
  {
    hide Placeholder;
    var log := [] + [Put(owner, REAL_CHAT), Put(owner, EMPTY_CHAT)];
    assert log[1] == Put(owner, EMPTY_CHAT) && log[0] == Put(owner, REAL_CHAT);
  }

  lemma RunsOn(s: State, first: Action, middle: seq<Action>, last: Action)
    ensures After(CHAT, s, [first] + middle + [last]) == Next(CHAT, After(CHAT, Next(CHAT, s, first), middle), last)
  {
    hide Next;
    assert ([first] + middle + [last])[1..] == middle + [last];
    AfterSnoc(CHAT, Next(CHAT, s, first), middle, last);
  }

  lemma {:induction false} AfterSnoc(f: File, s: State, actions: seq<Action>, last: Action)
    ensures After(f, s, actions + [last]) == Next(f, After(f, s, actions), last)
    decreases |actions|
  {
    hide Next;
    if actions == [] {
      assert actions + [last] == [last] && [last][1..] == [];
    } else {
      assert (actions + [last])[1..] == actions[1..] + [last];
      AfterSnoc(f, Next(f, s, actions[0]), actions[1..], last);
    }
  }
}
