/**
 * The `docker run` argument scanners (crates/core/src/mcp_servers.rs). All three loops are proved
 * against one segmentation of the argument list into options and a tail that starts at the image.
 */
module DockerArgs {
  import opened Wrappers
  import opened Text

  /** An option with the argument it consumes, or one that consumes none. */
  datatype Item = Pair(arg: string, value: string) | Single(arg: string)

  datatype Parsed = Parsed(items: seq<Item>, tail: seq<string>)

  /** The text before the first equals sign. */
  function Head(arg: string): string {
    Split(arg, '=')[0]
  }

  function AfterEquals(arg: string): string {
    if |Head(arg)| < |arg| then arg[|Head(arg)| + 1..] else ""
  }

  const VALUE_OPTIONS: set<string> := {
    "--add-host", "--annotation", "--attach", "--blkio-weight", "--cidfile", "--cpus", "--cpu-quota", "--cpu-shares",
    "--dns", "--dns-option", "--dns-search", "--entrypoint", "--env", "--env-file", "--expose", "--group-add",
    "--hostname", "--label", "--label-file", "--log-driver", "--log-opt", "--memory", "--memory-reservation",
    "--memory-swap", "--name", "--net", "--network", "--network-alias", "--platform", "--pull", "--restart", "--runtime",
    "--shm-size", "--stop-signal", "--user", "--workdir", "-a", "-e", "-h", "-l", "-m", "-u", "-w" }

  const FORBIDDEN_HOST: seq<string> := [
    "--volume", "--mount", "--device", "--cap-add", "--detach", "--privileged", "--publish", "--publish-all" ]

  const FORBIDDEN_NAMESPACES: seq<string> := [
    "--pid", "--ipc", "--uts", "--userns", "--cgroupns", "--cgroup-parent", "--network", "--net", "--security-opt" ]

  const FORBIDDEN_FILES: seq<string> := [
    "--env-file", "--label-file", "--cidfile", "--restart", "--volumes-from", "--device-cgroup-rule" ]

  const FORBIDDEN_LIMITS: seq<string> := [
    "--memory", "--memory-reservation", "--memory-swap", "--cpus", "--cpu-quota", "--cpu-shares", "--blkio-weight",
    "--pids-limit", "--ulimit", "--shm-size", "--oom-score-adj" ]

  const FORBIDDEN: seq<string> := FORBIDDEN_HOST + FORBIDDEN_NAMESPACES + FORBIDDEN_FILES + FORBIDDEN_LIMITS

  predicate OptionTakesValue(arg: string) {
    Head(arg) in VALUE_OPTIONS
  }

  predicate TakesNext(arg: string) {
    OptionTakesValue(arg) && '=' !in arg
  }

  /** `--` or anything that is not an option ends the options. */
  predicate StartsTail(arg: string) {
    arg == "--" || !StartsWith(arg, "-")
  }

  predicate IsRuntime(arg: string) {
    arg == "--runtime" || StartsWith(arg, "--runtime=")
  }

  // ----- The segmentation -----

  function Cons(item: Item, p: Parsed): Parsed {
    p.(items := [item] + p.items)
  }

  function Parse(rest: seq<string>): Parsed {
    if rest == [] || StartsTail(rest[0]) then Parsed([], rest)
    else if TakesNext(rest[0]) && |rest| >= 2 then Cons(Pair(rest[0], rest[1]), Parse(rest[2..]))
    else Cons(Single(rest[0]), Parse(rest[1..]))
  }

  function FlattenItems(items: seq<Item>): seq<string> {
    if items == [] then []
    else Pieces(items[0]) + FlattenItems(items[1..])
  }

  function Flatten(p: Parsed): seq<string> {
    FlattenItems(p.items) + p.tail
  }

  predicate ItemOk(item: Item, atEnd: bool) {
    && !StartsTail(item.arg)
    && (item.Pair? ==> TakesNext(item.arg))
    && (item.Single? && TakesNext(item.arg) ==> atEnd)
  }

  /** An option is a pair exactly when it takes a value and anything follows it. */
  predicate ItemsOk(items: seq<Item>, atEnd: bool) {
    items == [] || (ItemOk(items[0], |items| == 1 && atEnd) && ItemsOk(items[1..], atEnd))
  }

  predicate WellFormed(p: Parsed) {
    (p.tail != [] ==> StartsTail(p.tail[0])) && ItemsOk(p.items, p.tail == [])
  }

  lemma {:induction false} ItemsAreOptions(items: seq<Item>, atEnd: bool)
    requires ItemsOk(items, atEnd)
    ensures forall item <- items :: !StartsTail(item.arg)
  {
    hide StartsTail, TakesNext;
    if items != [] {
      ItemsAreOptions(items[1..], atEnd);
    }
  }

  function Pieces(item: Item): seq<string> {
    if item.Pair? then [item.arg, item.value] else [item.arg]
  }

  lemma FlattenCons(item: Item, p: Parsed)
    ensures Flatten(Cons(item, p)) == Pieces(item) + Flatten(p)
  {
    assert ([item] + p.items)[1..] == p.items;
    assert Pieces(item) + FlattenItems(p.items) + p.tail == Pieces(item) + (FlattenItems(p.items) + p.tail);
  }

  lemma ConsWellFormed(item: Item, p: Parsed)
    requires WellFormed(p) && ItemOk(item, p == Parsed([], []))
    ensures WellFormed(Cons(item, p))
  {
    hide ItemOk, StartsTail;
    assert ([item] + p.items)[1..] == p.items && ([item] + p.items)[0] == item;
  }

  lemma {:induction false} FlattenParse(rest: seq<string>)
    ensures Flatten(Parse(rest)) == rest && WellFormed(Parse(rest))
  {
    hide StartsTail, TakesNext, Flatten, WellFormed;
    if rest == [] || StartsTail(rest[0]) {
      NoOptions(rest);
    } else if TakesNext(rest[0]) && |rest| >= 2 {
      FlattenParse(rest[2..]);
      FlattenCons(Pair(rest[0], rest[1]), Parse(rest[2..]));
      ConsWellFormed(Pair(rest[0], rest[1]), Parse(rest[2..]));
      assert rest == [rest[0], rest[1]] + rest[2..];
    } else {
      FlattenParse(rest[1..]);
      FlattenCons(Single(rest[0]), Parse(rest[1..]));
      ConsWellFormed(Single(rest[0]), Parse(rest[1..]));
      assert rest == [rest[0]] + rest[1..];
    }
  }

  lemma NoOptions(rest: seq<string>)
    requires rest == [] || StartsTail(rest[0])
    ensures Flatten(Parsed([], rest)) == rest && WellFormed(Parsed([], rest))
  {
  }

  lemma {:induction false} ParseFlatten(p: Parsed)
    requires WellFormed(p)
    ensures Parse(Flatten(p)) == p
    decreases |p.items|
  {
    hide StartsTail, TakesNext;
    if p.items != [] {
      var q := p.(items := p.items[1..]);
      ParseFlatten(q);
      var f := Flatten(p);
      if p.items[0].Pair? {
        assert f[2..] == Flatten(q) && f[0] == p.items[0].arg && f[1] == p.items[0].value;
      } else {
        assert f[1..] == Flatten(q) && f[0] == p.items[0].arg;
        assert TakesNext(f[0]) ==> f == [f[0]];
      }
      assert p.items == [p.items[0]] + q.items;
    } else {
      assert Flatten(p) == p.tail;
    }
  }

  // ----- docker_run_image -----

  function TailImage(tail: seq<string>): Option<string> {
    if tail == [] then None
    else if tail[0] != "--" then Some(tail[0])
    else if |tail| >= 2 then Some(tail[1]) else None
  }

  function ImageOf(args: seq<string>): Option<string> {
    if args == [] || args[0] != "run" then None else TailImage(Parse(args[1..]).tail)
  }

  method DockerRunImage(args: seq<string>) returns (image: Option<string>)
    ensures image == ImageOf(args)
  {
    hide TakesNext, IsRuntime;
    if args == [] || args[0] != "run" {
      return None;
    }
    var i := 1;
    while i < |args|
      invariant 1 <= i <= |args| + 1
      invariant ImageOf(args) == if i <= |args| then TailImage(Parse(args[i..]).tail) else None
    {
      ghost var rest := args[i..];
      var arg := args[i];
      if arg == "--" {
        return if i + 1 < |args| then Some(args[i + 1]) else None;
      }
      if !StartsWith(arg, "-") {
        return Some(arg);
      }
      if TakesNext(arg) {
        assert |rest| >= 2 ==> rest[2..] == args[i + 2..];
        assert |rest| < 2 ==> rest[1..] == [];
        i := i + 2;
      } else {
        assert rest[1..] == args[i + 1..];
        i := i + 1;
      }
    }
    return None;
  }

  /** The image is the first argument after the options, or the one after `--`. */
  lemma ImageFollowsOptions(items: seq<Item>, image: string, rest: seq<string>)
    requires ItemsOk(items, false)
    ensures !StartsWith(image, "-") ==> ImageOf(["run"] + Flatten(Parsed(items, [image] + rest))) == Some(image)
    ensures ImageOf(["run"] + Flatten(Parsed(items, ["--", image] + rest))) == Some(image)
    ensures ImageOf(["run"] + Flatten(Parsed(items, ["--"]))) == None
  {
    hide Parse, Flatten, ItemsOk;
    RunParses(Parsed(items, ["--", image] + rest));
    RunParses(Parsed(items, ["--"]));
    if !StartsWith(image, "-") {
      RunParses(Parsed(items, [image] + rest));
    }
  }

  /** Options alone name no image, and neither does any other command. */
  lemma NoImageWithoutOperand(items: seq<Item>, command: string, rest: seq<string>)
    ensures ItemsOk(items, true) ==> ImageOf(["run"] + Flatten(Parsed(items, []))) == None
    ensures command != "run" ==> ImageOf([command] + rest) == None
  {
    hide Parse, Flatten, ItemsOk;
    if ItemsOk(items, true) {
      RunParses(Parsed(items, []));
    }
  }

  lemma RunParses(p: Parsed)
    requires WellFormed(p)
    ensures Parse((["run"] + Flatten(p))[1..]) == p
  {
    ParseFlatten(p);
    assert (["run"] + Flatten(p))[1..] == Flatten(p);
  }

  // ----- strip_docker_runtime_args -----

  function NoRuntime(items: seq<Item>): seq<Item> {
    if items == [] then []
    else (if IsRuntime(items[0].arg) then [] else [items[0]]) + NoRuntime(items[1..])
  }

  function Stripped(args: seq<string>): seq<string> {
    if args == [] then [] else
    var p := Parse(args[1..]);
    [args[0]] + Flatten(Parsed(NoRuntime(p.items), p.tail))
  }

  /** A bare `--runtime` takes the next argument, and `--runtime=x` does not. */
  lemma RuntimeTakesNext()
    ensures TakesNext("--runtime")
  {
    SplitAtom("--runtime", '=');
    assert "--runtime" in VALUE_OPTIONS;
  }

  lemma RuntimeEqualsTakesNone(arg: string)
    requires StartsWith(arg, "--runtime=")
    ensures !TakesNext(arg) && arg != "--runtime"
  {
    assert arg[9] == '=';
  }

  function StrippedRest(rest: seq<string>): seq<string> {
    var p := Parse(rest);
    Flatten(Parsed(NoRuntime(p.items), p.tail))
  }

  lemma StrippedRestStep(rest: seq<string>)
    requires rest != [] && !StartsTail(rest[0])
    ensures var taken := if TakesNext(rest[0]) && |rest| >= 2 then 2 else 1;
            StrippedRest(rest) == (if IsRuntime(rest[0]) then [] else rest[..taken]) + StrippedRest(rest[taken..])
  {
    hide StartsTail, TakesNext, IsRuntime, Flatten;
    var taken := if TakesNext(rest[0]) && |rest| >= 2 then 2 else 1;
    var item := if taken == 2 then Pair(rest[0], rest[1]) else Single(rest[0]);
    var q := Parse(rest[taken..]);
    var kept := Parsed(NoRuntime(q.items), q.tail);
    assert ([item] + q.items)[1..] == q.items;
    assert Parsed(NoRuntime(Parse(rest).items), q.tail) == if IsRuntime(rest[0]) then kept else Cons(item, kept);
    FlattenCons(item, kept);
    assert rest[..taken] == Pieces(item);
  }

  method StripDockerRuntimeArgs(args: seq<string>) returns (out: seq<string>)
    ensures out == Stripped(args)
  {
    hide TakesNext, StrippedRest;
    if args == [] {
      return [];
    }
    StrippedUnfold(args);
    out := [args[0]];
    var i := 1;
    while i < |args|
      invariant 1 <= i <= |args|
      invariant Stripped(args) == out + StrippedRest(args[i..])
    {
      ghost var rest := args[i..];
      var arg := args[i];
      if arg == "--" || !StartsWith(arg, "-") {
        TailIsKept(rest);
        out := out + args[i..];
        return;
      }
      StrippedRestStep(rest);
      RuntimeTakesNext();
      if arg == "--runtime" {
        assert |rest| >= 2 ==> rest[2..] == args[i + 2..];
        assert rest[1..] == args[i + 1..];
        i := i + if i + 1 < |args| then 2 else 1;
        continue;
      }
      if StartsWith(arg, "--runtime=") {
        RuntimeEqualsTakesNone(arg);
        assert rest[1..] == args[i + 1..];
        i := i + 1;
        continue;
      }
      out := out + [arg];
      if TakesNext(arg) && i + 1 < |args| {
        out := out + [args[i + 1]];
        assert rest[2..] == args[i + 2..] && rest[..2] == [arg, args[i + 1]];
        i := i + 2;
      } else {
        assert rest[1..] == args[i + 1..] && rest[..1] == [arg];
        i := i + 1;
      }
    }
    NothingIsKept();
    assert args[i..] == [];
  }

  lemma StrippedUnfold(args: seq<string>)
    requires args != []
    ensures Stripped(args) == [args[0]] + StrippedRest(args[1..])
  {
  }

  lemma TailIsKept(rest: seq<string>)
    requires rest != [] && StartsTail(rest[0])
    ensures StrippedRest(rest) == rest
  {
    assert FlattenItems([]) + rest == rest;
  }

  lemma NothingIsKept()
    ensures StrippedRest([]) == []
  {
  }

  lemma {:induction false} NoRuntimeKeeps(items: seq<Item>)
    ensures forall item <- NoRuntime(items) :: !IsRuntime(item.arg) && item in items
    ensures |NoRuntime(items)| <= |items|
    ensures (forall item <- items :: !IsRuntime(item.arg)) ==> NoRuntime(items) == items
  {
    hide IsRuntime;
    if items != [] {
      NoRuntimeKeeps(items[1..]);
      assert items == [items[0]] + items[1..];
    }
  }

  /** Filtering keeps the last item last, so a segmentation stays one. */
  lemma {:induction false} NoRuntimeItemsOk(items: seq<Item>, atEnd: bool)
    requires ItemsOk(items, atEnd)
    ensures ItemsOk(NoRuntime(items), atEnd)
  {
    hide StartsTail, TakesNext, IsRuntime;
    if items != [] {
      NoRuntimeItemsOk(items[1..], atEnd);
      var kept := NoRuntime(items[1..]);
      var all := [items[0]] + kept;
      assert |items| == 1 ==> kept == [];
      assert all[0] == items[0] && all[1..] == kept;
      assert ItemOk(all[0], |all| == 1 && atEnd);
      assert NoRuntime(items) == if IsRuntime(items[0].arg) then kept else all;
    }
  }

  /** What stripping does to the segmentation: runtime options go, all else stays in place. */
  lemma StrippedParse(args: seq<string>)
    requires args != []
    ensures var p := Parse(args[1..]);
            Stripped(args)[0] == args[0] && Parse(Stripped(args)[1..]) == Parsed(NoRuntime(p.items), p.tail)
  {
    hide Parse, NoRuntime, ItemsOk;
    var p := Parse(args[1..]);
    FlattenParse(args[1..]);
    NoRuntimeItemsOk(p.items, p.tail == []);
    ParseFlatten(Parsed(NoRuntime(p.items), p.tail));
    assert Stripped(args)[1..] == Flatten(Parsed(NoRuntime(p.items), p.tail));
  }

  /** No runtime flag is left where an option may stand, and the image and all that follows it are kept. */
  lemma StripLeavesNoRuntime(args: seq<string>)
    requires args != []
    ensures forall item <- Parse(Stripped(args)[1..]).items :: !IsRuntime(item.arg)
    ensures Parse(Stripped(args)[1..]).tail == Parse(args[1..]).tail
    ensures ImageOf(Stripped(args)) == ImageOf(args)
  {
    hide Parse, NoRuntime, Stripped, IsRuntime;
    StrippedParse(args);
    NoRuntimeKeeps(Parse(args[1..]).items);
    StripKeepsHead(args);
  }

  lemma StripKeepsHead(args: seq<string>)
    requires args != []
    ensures Stripped(args) != [] && Stripped(args)[0] == args[0]
  {
  }

  lemma StripWithoutRuntime(args: seq<string>)
    requires args != [] && forall item <- Parse(args[1..]).items :: !IsRuntime(item.arg)
    ensures Stripped(args) == args
  {
    hide Parse, NoRuntime, IsRuntime;
    NoRuntimeKeeps(Parse(args[1..]).items);
    FlattenParse(args[1..]);
  }

  lemma StripIsIdempotent(args: seq<string>)
    ensures Stripped(Stripped(args)) == Stripped(args)
  {
    hide Parse, NoRuntime, Stripped, IsRuntime;
    if args != [] {
      StripKeepsHead(args);
      StripLeavesNoRuntime(args);
      StripWithoutRuntime(Stripped(args));
    } else {
      StripNothing();
    }
  }

  lemma StripNothing()
    ensures Stripped([]) == []
  {
  }

  // ----- validate_docker_stdio_args -----

  predicate MentionsSocket(arg: string) {
    Contains(arg, "/var/run/docker.sock") || Contains(arg, "docker.sock")
  }

  predicate Matches(arg: string, flag: string) {
    arg == flag || StartsWith(arg, flag + "=")
  }

  predicate IsNetwork(flag: string) {
    flag == "--network" || flag == "--net"
  }

  function FlagValue(arg: string, next: Option<string>): string {
    if '=' in arg then AfterEquals(arg) else if next.Some? then next.value else ""
  }

  predicate AllowedNetwork(value: string) {
    value == "none" || value == "bridge"
  }

  /** The named options that are refused, whatever else stands beside them. */
  predicate RefusedByShape(arg: string)
    requires arg != ""
  {
    || arg == "--detach" || arg == "-d"
    || (StartsWith(arg, "--rm=") && arg != "--rm=true")
    || arg == "--privileged"
    || IsRuntime(arg)
    || StartsWith(arg, "-v") || StartsWith(arg, "-p") || StartsWith(arg, "-P") || StartsWith(arg, "-m")
    || (!StartsWith(arg, "--") && 'd' in arg[1..])
  }

  /** An option from the deny list, spelt alone or with `=`; only two networks are let through. */
  predicate RefusedByList(arg: string, next: Option<string>) {
    Head(arg) in FORBIDDEN && !(IsNetwork(Head(arg)) && AllowedNetwork(FlagValue(arg, next)))
  }

  predicate Permitted(arg: string, next: Option<string>) {
    !MentionsSocket(arg) && (arg != "" ==> !RefusedByShape(arg)) && !RefusedByList(arg, next)
  }

  predicate ItemPermitted(item: Item) {
    Permitted(item.arg, if item.Pair? then Some(item.value) else None)
  }

  /** Every option is permitted, and an image follows that is not the Docker socket. */
  predicate AcceptableRest(rest: seq<string>) {
    var p := Parse(rest);
    && TailImage(p.tail).Some?
    && (forall item <- p.items :: ItemPermitted(item))
    && (p.tail != [] ==> !MentionsSocket(p.tail[0]))
  }

  predicate Acceptable(args: seq<string>) {
    args != [] && args[0] == "run" && AcceptableRest(args[1..])
  }

  lemma {:induction false} HeadSplits(arg: string)
    ensures '=' !in Head(arg) && Head(arg) <= arg && (|Head(arg)| < |arg| ==> arg[|Head(arg)|] == '=')
  {
    if arg != "" {
      HeadSplits(arg[1..]);
      if arg[0] != '=' {
        assert Head(arg) == [arg[0]] + Head(arg[1..]);
      }
    }
  }

  lemma MatchesHead(arg: string, flag: string)
    requires '=' !in flag
    ensures Matches(arg, flag) <==> Head(arg) == flag
  {
    HeadSplits(arg);
    if StartsWith(arg, flag + "=") {
      assert arg[..|flag| + 1] == flag + "=";
      HeadIsDetermined(Head(arg), flag, AfterEquals(arg), arg[|flag| + 1..], '=') by {
        assert arg[|flag|] == '=' && '=' in arg;
        assert arg == flag + "=" + arg[|flag| + 1..];
        assert Head(arg) != arg;
        assert arg == Head(arg) + "=" + AfterEquals(arg);
      }
    }
    if arg == flag {
      SplitAtom(arg, '=');
    }
    if Head(arg) == flag && arg != flag {
      assert arg[..|flag|] == flag && arg[|flag|] == '=';
      assert arg[..|flag| + 1] == flag + "=";
    }
  }

  predicate NoEquals(flags: seq<string>) {
    forall flag <- flags :: '=' !in flag
  }

  lemma HostFlagsHaveNoEquals()
    ensures NoEquals(FORBIDDEN_HOST)
  {
  }

  lemma NamespaceFlagsHaveNoEquals()
    ensures NoEquals(FORBIDDEN_NAMESPACES)
  {
  }

  lemma FileFlagsHaveNoEquals()
    ensures NoEquals(FORBIDDEN_FILES)
  {
  }

  lemma LimitFlagsHaveNoEquals()
    ensures NoEquals(FORBIDDEN_LIMITS)
  {
  }

  lemma NoEqualsAppend(a: seq<string>, b: seq<string>)
    requires NoEquals(a) && NoEquals(b)
    ensures NoEquals(a + b)
  {
  }

  lemma ForbiddenHaveNoEquals()
    ensures NoEquals(FORBIDDEN)
  {
    hide NoEquals;
    HostFlagsHaveNoEquals();
    NamespaceFlagsHaveNoEquals();
    FileFlagsHaveNoEquals();
    LimitFlagsHaveNoEquals();
    NoEqualsAppend(FORBIDDEN_HOST, FORBIDDEN_NAMESPACES);
    NoEqualsAppend(FORBIDDEN_HOST + FORBIDDEN_NAMESPACES, FORBIDDEN_FILES);
    NoEqualsAppend(FORBIDDEN_HOST + FORBIDDEN_NAMESPACES + FORBIDDEN_FILES, FORBIDDEN_LIMITS);
  }

  method ListRefuses(arg: string, next: Option<string>) returns (refused: bool)
    ensures refused == RefusedByList(arg, next)
  {
    ForbiddenHaveNoEquals();
    refused := FlagsRefuse(FORBIDDEN, arg, next);
  }

  method FlagsRefuse(flags: seq<string>, arg: string, next: Option<string>) returns (refused: bool)
    requires NoEquals(flags)
    ensures refused <==> Head(arg) in flags && !(IsNetwork(Head(arg)) && AllowedNetwork(FlagValue(arg, next)))
  {
    hide Head, FlagValue, Matches, IsNetwork, AllowedNetwork;
    for j := 0 to |flags|
      invariant Head(arg) !in flags[..j]
    {
      var flag := flags[j];
      assert flag in flags;
      MatchesHead(arg, flag);
      assert flags[..j + 1] == flags[..j] + [flag];
      if Matches(arg, flag) {
        if IsNetwork(flag) && AllowedNetwork(FlagValue(arg, next)) {
          return false;
        }
        return true;
      }
    }
    assert flags[..|flags|] == flags;
    return false;
  }

  lemma NetworkTakesValue(flag: string)
    requires IsNetwork(flag)
    ensures flag in VALUE_OPTIONS
  {
  }

  /** Only an option that consumes the next argument is judged by it. */
  lemma NextIsValue(arg: string, next: Option<string>)
    requires !TakesNext(arg)
    ensures RefusedByList(arg, next) == RefusedByList(arg, None)
  {
    if IsNetwork(Head(arg)) && '=' !in arg {
      NetworkTakesValue(Head(arg));
    }
  }

  lemma AcceptableStep(rest: seq<string>)
    requires rest != [] && !StartsTail(rest[0])
    ensures var taken := if TakesNext(rest[0]) && |rest| >= 2 then 2 else 1;
            AcceptableRest(rest) <==>
              Permitted(rest[0], if |rest| >= 2 then Some(rest[1]) else None) && AcceptableRest(rest[taken..])
  {
    hide StartsTail, TakesNext, MentionsSocket, RefusedByShape, RefusedByList;
    var taken := if TakesNext(rest[0]) && |rest| >= 2 then 2 else 1;
    var p, q := Parse(rest), Parse(rest[taken..]);
    assert p.items == [p.items[0]] + q.items && p.tail == q.tail;
    if !TakesNext(rest[0]) && |rest| >= 2 {
      NextIsValue(rest[0], Some(rest[1]));
    }
    assert ItemPermitted(p.items[0]) == Permitted(rest[0], if |rest| >= 2 then Some(rest[1]) else None);
    assert p.items[0] in p.items && forall item <- q.items :: item in p.items;
    assert forall item <- p.items :: item == p.items[0] || item in q.items;
  }

  /** Accepts exactly the lists whose options are all permitted and that name an image. */
  method ValidateDockerStdioArgs(args: seq<string>) returns (ok: bool)
    ensures ok == Acceptable(args)
  {
    hide TakesNext, MentionsSocket, RefusedByShape, RefusedByList, AcceptableRest, IsRuntime;
    if args == [] || args[0] != "run" {
      return false;
    }
    var imageSeen, i := false, 1;
    while i < |args|
      invariant 1 <= i <= |args| + 1 && !imageSeen
      invariant AcceptableRest(args[1..]) == (i <= |args| && AcceptableRest(args[i..]))
    {
      ghost var rest := args[i..];
      var arg := args[i];
      if StartsTail(arg) {
        AcceptableTail(rest);
      } else {
        AcceptableStep(rest);
        assert |rest| >= 2 ==> rest[2..] == args[i + 2..];
        assert rest[1..] == args[i + 1..];
      }
      if MentionsSocket(arg) {
        return false;
      }
      if arg == "--" {
        imageSeen := i + 1 < |args|;
        return imageSeen;
      }
      if !StartsWith(arg, "-") {
        imageSeen := true;
        return imageSeen;
      }
      if RefusedByShape(arg) {
        return false;
      }
      var refused := ListRefuses(arg, if i + 1 < |args| then Some(args[i + 1]) else None);
      if refused {
        return false;
      }
      AcceptableNothing();
      i := i + if TakesNext(arg) then 2 else 1;
    }
    AcceptableNothing();
    return false;
  }

  lemma AcceptableTail(rest: seq<string>)
    requires rest != [] && StartsTail(rest[0])
    ensures AcceptableRest(rest) <==> !MentionsSocket(rest[0]) && (rest[0] == "--" ==> |rest| >= 2)
  {
    hide MentionsSocket;
  }

  lemma AcceptableNothing()
    ensures !AcceptableRest([])
  {
  }

  lemma PermittedIsNotRuntime(item: Item)
    requires !StartsTail(item.arg) && ItemPermitted(item)
    ensures !IsRuntime(item.arg)
  {
    hide IsRuntime, MentionsSocket, RefusedByList;
  }

  /** A list the validator accepts names an image, and stripping leaves it alone. */
  lemma AcceptedIsStripped(args: seq<string>)
    requires Acceptable(args)
    ensures ImageOf(args).Some? && Stripped(args) == args
  {
    hide IsRuntime, ItemPermitted, MentionsSocket, Stripped, StartsTail, ItemsOk;
    var p := Parse(args[1..]);
    FlattenParse(args[1..]);
    ItemsAreOptions(p.items, p.tail == []);
    forall item | item in p.items ensures !IsRuntime(item.arg) {
      PermittedIsNotRuntime(item);
    }
    StripWithoutRuntime(args);
  }

  // ----- What the validator lets through, told by what an option asks for -----

  const ASKS_FOR_HOST: set<string> := {
    "--volume", "--mount", "--volumes-from", "--device", "--device-cgroup-rule", "--cap-add", "--privileged",
    "--publish", "--publish-all", "--detach" }

  const ASKS_FOR_NAMESPACE: set<string> := {
    "--pid", "--ipc", "--uts", "--userns", "--cgroupns", "--cgroup-parent", "--security-opt" }

  const ASKS_FOR_FILE: set<string> := { "--env-file", "--label-file", "--cidfile", "--restart" }

  const ASKS_FOR_LIMIT: set<string> := {
    "--memory", "--memory-reservation", "--memory-swap", "--cpus", "--cpu-quota", "--cpu-shares", "--blkio-weight",
    "--pids-limit", "--ulimit", "--shm-size", "--oom-score-adj" }

  predicate AsksTooMuch(head: string) {
    head in ASKS_FOR_HOST || head in ASKS_FOR_NAMESPACE || head in ASKS_FOR_FILE || head in ASKS_FOR_LIMIT || head == "--runtime"
  }

  lemma HostLists(h: string)
    ensures h in FORBIDDEN_HOST || h in FORBIDDEN_FILES <==> h in ASKS_FOR_HOST || h in ASKS_FOR_FILE
  {
  }

  lemma NamespaceLists(h: string)
    ensures h in FORBIDDEN_NAMESPACES <==> h in ASKS_FOR_NAMESPACE || h == "--network" || h == "--net"
  {
  }

  lemma LimitLists(h: string)
    ensures h in FORBIDDEN_LIMITS <==> h in ASKS_FOR_LIMIT
  {
  }

  lemma RuntimeHead(arg: string)
    ensures IsRuntime(arg) <==> Head(arg) == "--runtime"
  {
    MatchesHead(arg, "--runtime");
    assert "--runtime" + "=" == "--runtime=";
  }

  /** A long option is let through unless its name asks too much or it keeps the container; a network only by name. */
  lemma LongOptionPermittedIff(arg: string, next: Option<string>)
    requires StartsWith(arg, "--") && arg != "--"
    ensures Permitted(arg, next) <==>
            && !MentionsSocket(arg) && !AsksTooMuch(Head(arg))
            && (IsNetwork(Head(arg)) ==> AllowedNetwork(FlagValue(arg, next)))
            && (Head(arg) == "--rm" ==> arg == "--rm" || arg == "--rm=true")
  {
    hide MentionsSocket, FlagValue, AllowedNetwork, IsRuntime;
    assert arg[0] == '-' && arg[1] == '-';
    HostLists(Head(arg));
    NamespaceLists(Head(arg));
    LimitLists(Head(arg));
    RuntimeHead(arg);
    MatchesHead(arg, "--rm");
    MatchesHead(arg, "--detach");
    MatchesHead(arg, "--privileged");
    assert "--rm" + "=" == "--rm=";
    NotShort(arg);
  }

  lemma NotShort(arg: string)
    requires StartsWith(arg, "--")
    ensures !StartsWith(arg, "-v") && !StartsWith(arg, "-p") && !StartsWith(arg, "-P") && !StartsWith(arg, "-m") && arg != "-d"
  {
    assert arg[1] == '-';
  }

  /** A cluster of short options is let through unless it detaches, or begins with a volume, a port or a memory limit. */
  lemma ShortOptionPermittedIff(arg: string, next: Option<string>)
    requires StartsWith(arg, "-") && !StartsWith(arg, "--")
    ensures Permitted(arg, next) <==>
            !MentionsSocket(arg) && 'd' !in arg[1..] && (|arg| > 1 ==> arg[1] !in "vpPm")
  {
    hide MentionsSocket;
    assert |arg| > 1 ==> (StartsWith(arg, "-v") <==> arg[1] == 'v') && (StartsWith(arg, "-p") <==> arg[1] == 'p');
    assert |arg| > 1 ==> (StartsWith(arg, "-P") <==> arg[1] == 'P') && (StartsWith(arg, "-m") <==> arg[1] == 'm');
    ShortIsNotLong(arg);
    assert arg == "-d" ==> arg[1] == 'd' && arg[1..][0] == 'd';
  }

  lemma ShortIsNotLong(arg: string)
    requires StartsWith(arg, "-") && !StartsWith(arg, "--")
    ensures Head(arg) !in FORBIDDEN && !IsRuntime(arg) && !StartsWith(arg, "--rm=") && arg != "--detach" && arg != "--privileged"
  {
    HeadSplits(arg);
    LongNames(Head(arg));
    LongPrefix(Head(arg), arg);
    LongPrefix("--runtime", arg);
    LongPrefix("--rm=", arg);
  }

  lemma LongPrefix(h: string, arg: string)
    ensures StartsWith(h, "--") && h <= arg ==> StartsWith(arg, "--")
  {
  }

  predicate AllLong(flags: seq<string>) {
    forall flag <- flags :: StartsWith(flag, "--")
  }

  lemma HostFlagsAreLong()
    ensures AllLong(FORBIDDEN_HOST)
  {
  }

  lemma NamespaceFlagsAreLong()
    ensures AllLong(FORBIDDEN_NAMESPACES)
  {
  }

  lemma FileFlagsAreLong()
    ensures AllLong(FORBIDDEN_FILES)
  {
  }

  lemma LimitFlagsAreLong()
    ensures AllLong(FORBIDDEN_LIMITS)
  {
  }

  lemma LongNames(h: string)
    ensures h in FORBIDDEN ==> StartsWith(h, "--")
  {
    HostFlagsAreLong();
    NamespaceFlagsAreLong();
    FileFlagsAreLong();
    LimitFlagsAreLong();
    hide StartsWith;
    assert forall flag <- FORBIDDEN ::
        flag in FORBIDDEN_HOST || flag in FORBIDDEN_NAMESPACES || flag in FORBIDDEN_FILES || flag in FORBIDDEN_LIMITS;
  }

  /** Both spellings of a network are judged by its name, and only two names are let through. */
  lemma NetworkSpellings(flag: string, name: string)
    requires IsNetwork(flag)
    ensures AllowedNetwork(FlagValue(flag + "=" + name, None)) <==> name in ["none", "bridge"]
    ensures AllowedNetwork(FlagValue(flag, Some(name))) <==> name in ["none", "bridge"]
    ensures !AllowedNetwork(FlagValue(flag, None))
    ensures flag == "--net" || flag == "--network"
  {
    var arg := flag + "=" + name;
    MatchesHead(arg, flag);
    assert arg[..|flag| + 1] == flag + "=" && arg[|flag| + 1..] == name && arg[|flag|] == '=';
  }

  lemma NetworkNames()
    ensures IsNetwork("--net") && IsNetwork("--network")
  {
  }

  /** Any mention of the socket's file name counts, whatever its directory. */
  lemma SocketByName(before: string, after: string, arg: string)
    ensures MentionsSocket(before + "docker.sock" + after)
    ensures MentionsSocket(arg) ==> Contains(arg, "docker.sock")
  {
    var named := before + "docker.sock" + after;
    assert named[|before|..] == "docker.sock" + after;
    if i :| 0 <= i <= |arg| && "/var/run/docker.sock" <= arg[i..] {
      assert "/var/run/docker.sock"[9..] == "docker.sock";
      assert arg[i..][9..20] == "docker.sock" && arg[i + 9..] == arg[i..][9..];
      assert "docker.sock" <= arg[i + 9..];
    }
  }
}
