/**
 * The online control of IPCMonitorServer (Performance.h, Performance.cpp):
 * the command table, the four handlers and one dispatch step of the
 * OnMessage loop, applied to the option flags.
 */
module Control {
  import opened Wrappers
  import opened Options
  import Registry

  /** The four handlers the command table maps to. */
  datatype Command = GetStateCmd | SaveCmd | DisableCmd | EnableCmd

  /** `_cmdFuncsMap` as the constructor fills it. */
  const CommandTable: map<string, Command> :=
    map["state" := GetStateCmd, "save" := SaveCmd, "disable" := DisableCmd, "enable" := EnableCmd]

  /** The `_cmdFuncsMap.find(cmd)` of OnMessage. */
  function Lookup(cmd: string): (r: Option<Command>)
    ensures r.Some? <==> cmd in {"state", "save", "disable", "enable"}
    ensures r.Some? ==> CommandTable[cmd] == r.value
  {
    if cmd in CommandTable then Some(CommandTable[cmd]) else None
  }

  /** Each of the four names finds its own handler. */
  lemma LookupNames()
    ensures Lookup("state") == Some(GetStateCmd) && Lookup("save") == Some(SaveCmd)
    ensures Lookup("disable") == Some(DisableCmd) && Lookup("enable") == Some(EnableCmd)
  {
  }

  const InvalidReply := "Invalid Command"
  const EnableReply := "Enable Success"
  const DisableReply := "Disable Success"
  const SaveReply := "Save Success"

  const StatePrefix := "State:"
  const NoneLine := "None\n"
  const ProfilerLine := "Performance Profiler \n"
  const ConsoleLine := "Save To Console\n"
  const FileLine := "Save To File\n"

  /** What GetState reports about the flags: nothing set, or which of three bits are set. */
  datatype StateView = NothingSet | Bits(profiler: bool, console: bool, file: bool)

  function ViewOf(f: Flags): StateView {
    if f == NONE then NothingSet
    else Bits(Has(f, PROFILER), Has(f, SAVE_TO_CONSOLE), Has(f, SAVE_TO_FILE))
  }

  /** The lines after "State:" for a view. */
  function Lines(v: StateView): string {
    match v
    case NothingSet => NoneLine
    case Bits(p, c, fl) =>
      (if p then ProfilerLine else "") + (if c then ConsoleLine else "") + (if fl then FileLine else "")
  }

  /** The text GetState appends for flags `f`. */
  function StateText(f: Flags): string {
    StatePrefix + Lines(ViewOf(f))
  }

  /** Removes `p` from the front of `s` when it is there. */
  function Strip(p: string, s: string): (r: (bool, string))
    ensures r.0 <==> |p| <= |s| && s[..|p|] == p
    ensures r.0 ==> s == p + r.1
    ensures !r.0 ==> r.1 == s
  {
    if |p| <= |s| && s[..|p|] == p then
      assert s == s[..|p|] + s[|p|..];
      (true, s[|p|..])
    else (false, s)
  }

  /** Reads the lines of a view with bits back, in the order GetState writes them. */
  function ParseBits(t: string): Option<StateView> {
    var (p, r1) := Strip(ProfilerLine, t);
    var (c, r2) := Strip(ConsoleLine, r1);
    var (fl, r3) := Strip(FileLine, r2);
    if r3 == "" then Some(Bits(p, c, fl)) else None
  }

  /** Reads a GetState reply back: the inverse of StateText on views. */
  function ParseState(s: string): Option<StateView> {
    var (hasPrefix, rest) := Strip(StatePrefix, s);
    if !hasPrefix then None
    else if rest == NoneLine then Some(NothingSet)
    else ParseBits(rest)
  }

  lemma StripHit(p: string, rest: string)
    ensures Strip(p, p + rest) == (true, rest)
  {
    assert (p + rest)[..|p|] == p;
  }

  /** A line whose k-th character differs from the text is not stripped. */
  lemma StripMiss(p: string, s: string, k: nat)
    requires k < |p| && (k < |s| ==> s[k] != p[k])
    ensures Strip(p, s) == (false, s)
  {
    if |p| <= |s| {
      assert s[..|p|][k] != p[k];
    }
  }

  /** The lines of a view that has bits never read as "None\n". */
  lemma BitsLinesStartWell(p: bool, c: bool, fl: bool)
    ensures var t := Lines(Bits(p, c, fl));
      t != NoneLine && (|t| > 0 ==> t[0] == 'P' || t[0] == 'S')
  {
    var t := Lines(Bits(p, c, fl));
    if |t| > 0 {
      assert t[0] != NoneLine[0];
    }
  }

  lemma ParseBitsOf(p: bool, c: bool, fl: bool)
    ensures ParseBits(Lines(Bits(p, c, fl))) == Some(Bits(p, c, fl))
  {
    var b := if fl then FileLine else "";
    var t1 := (if c then ConsoleLine else "") + b;
    assert Lines(Bits(p, c, fl)) == (if p then ProfilerLine else "") + t1;
    if p {
      StripHit(ProfilerLine, t1);
    } else {
      BitsLinesStartWell(false, c, fl);
      StripMiss(ProfilerLine, t1, 0);
    }
    if c {
      StripHit(ConsoleLine, b);
    } else {
      StripMiss(ConsoleLine, b, 8);
    }
    if fl {
      StripHit(FileLine, "");
      assert FileLine + "" == FileLine;
    } else {
      StripMiss(FileLine, "", 0);
    }
  }

  /** The reply of GetState determines the view: ParseState undoes Lines. */
  lemma ParseLines(v: StateView)
    ensures ParseState(StatePrefix + Lines(v)) == Some(v)
  {
    StripHit(StatePrefix, Lines(v));
    if v.Bits? {
      BitsLinesStartWell(v.profiler, v.console, v.file);
      ParseBitsOf(v.profiler, v.console, v.file);
    }
  }

  /** The concatenation GetState builds, one piece at a time, regrouped as StateText groups it. */
  lemma Regroup(a: string, b: string, c: string, d: string, e: string)
    ensures a + b + c + d + e == a + (b + (c + d + e))
  {
    assert a + b + c + d + e == a + (b + c + d + e);
    assert b + c + d + e == b + (c + d + e);
  }

  /** GetState replies alike for two flag values exactly when it reports the same view. */
  lemma StateTextInjective(f: Flags, g: Flags)
    ensures StateText(f) == StateText(g) <==> ViewOf(f) == ViewOf(g)
  {
    ParseLines(ViewOf(f));
    ParseLines(ViewOf(g));
  }

  /** The two sort bits never show in the state reply of non-zero flags. */
  lemma SortBitsAreNotReported(f: Flags)
    requires f != NONE
    ensures StateText(f | SAVE_BY_CALL_COUNT) == StateText(f)
    ensures StateText(f | SAVE_BY_COST_TIME) == StateText(f)
  {
  }

  /** The outcome of one command: the reply, the new flags, and whether a report is output. */
  datatype Outcome = Outcome(reply: string, flags: Flags, output: bool)

  /** One step of OnMessage: look the command up and run its handler on an empty reply. */
  function Dispatch(cmd: string, f: Flags): (o: Outcome)
    ensures o.output <==> cmd == "save"
    ensures cmd !in CommandTable ==> o == Outcome(InvalidReply, f, false)
  {
    match Lookup(cmd)
    case None => Outcome(InvalidReply, f, false)
    case Some(GetStateCmd) => Outcome(StateText(f), f, false)
    case Some(EnableCmd) => Outcome(EnableReply, PROFILER | SAVE_TO_FILE, false)
    case Some(DisableCmd) => Outcome(DisableReply, NONE, false)
    case Some(SaveCmd) => Outcome(SaveReply, f | SAVE_TO_FILE, true)
  }

  /** Only enable, disable and save change the flags. */
  lemma OnlyWritersChangeFlags(cmd: string, f: Flags)
    requires cmd !in {"enable", "disable", "save"}
    ensures Dispatch(cmd, f).flags == f
  {
  }

  /** save sets the file bit and keeps every other option bit. */
  lemma SaveKeepsOtherBits(f: Flags, b: Flags)
    requires IsOption(b)
    ensures Has(Dispatch("save", f).flags, b) <==> Has(f, b) || b == SAVE_TO_FILE
  {
    if b != SAVE_TO_FILE {
      SetOptionKeepsOthers(f, SAVE_TO_FILE, b);
    }
  }

  /** A second save leaves the flags as the first left them. */
  lemma SaveIsIdempotent(f: Flags)
    ensures Dispatch("save", Dispatch("save", f).flags).flags == Dispatch("save", f).flags
  {
  }

  /** After enable, state reports the profiler and the file; after disable, none. */
  lemma EnableThenState(f: Flags)
    ensures Dispatch("state", Dispatch("enable", f).flags).reply
            == StatePrefix + ProfilerLine + FileLine
  {
    LookupNames();
    var g := Dispatch("enable", f).flags;
    assert ViewOf(g) == Bits(true, false, true);
    assert Lines(ViewOf(g)) == ProfilerLine + FileLine;
  }

  lemma DisableThenState(f: Flags)
    ensures Dispatch("state", Dispatch("disable", f).flags).reply == StatePrefix + NoneLine
  {
    LookupNames();
  }

  /** IPCMonitorServer: the command table and its handlers, over the option manager and the registry. */
  class IPCMonitorServer {
    const cmdFuncsMap: map<string, Command>

    constructor ()
      ensures cmdFuncsMap == CommandTable
    {
      cmdFuncsMap := CommandTable;
    }

    /** GetState: appends "State:" and a line per reported bit, or "None\n" for no flags. */
    method GetState(options: OptionManager, reply: string) returns (r: string)
      ensures r == reply + StateText(options.flag)
    {
      r := reply + StatePrefix;
      var flag := options.GetOptions();
      if flag == NONE {
        r := r + NoneLine;
        return;
      }
      ghost var v := ViewOf(flag);
      ghost var p := if v.profiler then ProfilerLine else "";
      ghost var c := if v.console then ConsoleLine else "";
      ghost var fl := if v.file then FileLine else "";
      if Has(flag, PROFILER) {
        r := r + ProfilerLine;
      }
      assert r == reply + StatePrefix + p;
      if Has(flag, SAVE_TO_CONSOLE) {
        r := r + ConsoleLine;
      }
      assert r == reply + StatePrefix + p + c;
      if Has(flag, SAVE_TO_FILE) {
        r := r + FileLine;
      }
      assert r == reply + StatePrefix + p + c + fl;
      Regroup(reply, StatePrefix, p, c, fl);
    }

    method Enable(options: OptionManager, reply: string) returns (r: string)
      modifies options
      ensures options.flag == PROFILER | SAVE_TO_FILE
      ensures r == reply + EnableReply
    {
      options.SetOptions(PROFILER | SAVE_TO_FILE);
      r := reply + EnableReply;
    }

    method Disable(options: OptionManager, reply: string) returns (r: string)
      modifies options
      ensures options.flag == NONE
      ensures r == reply + DisableReply
    {
      options.SetOptions(NONE);
      r := reply + DisableReply;
    }

    /** Save: adds the file bit, outputs the report with the new flags, then replies. */
    method Save(options: OptionManager, perf: Registry.Performance, reply: string)
      returns (r: string, outputs: seq<(Registry.Destination, Registry.Report)>)
      modifies options
      ensures options.flag == old(options.flag) | SAVE_TO_FILE
      ensures Registry.IsOutputOf(outputs, perf.beginTime, perf.Rows(), options.flag)
      ensures r == reply + SaveReply
    {
      var flag := options.GetOptions();
      options.SetOptions(flag | SAVE_TO_FILE);
      outputs := perf.OutPut(options);
      r := reply + SaveReply;
    }

    /** One command of OnMessage: the reply, the flags and the output agree with Dispatch. */
    method OnCommand(cmd: string, options: OptionManager, perf: Registry.Performance)
      returns (reply: string, outputs: seq<(Registry.Destination, Registry.Report)>)
      requires cmdFuncsMap == CommandTable
      modifies options
      ensures reply == Dispatch(cmd, old(options.flag)).reply
      ensures options.flag == Dispatch(cmd, old(options.flag)).flags
      ensures Dispatch(cmd, old(options.flag)).output ==>
        Registry.IsOutputOf(outputs, perf.beginTime, perf.Rows(), options.flag)
      ensures !Dispatch(cmd, old(options.flag)).output ==> outputs == []
    {
      reply := "";
      outputs := [];
      if cmd in cmdFuncsMap {
        match cmdFuncsMap[cmd]
        case GetStateCmd =>
          reply := GetState(options, reply);
        case SaveCmd =>
          reply, outputs := Save(options, perf, reply);
        case DisableCmd =>
          reply := Disable(options, reply);
        case EnableCmd =>
          reply := Enable(options, reply);
      } else {
        reply := InvalidReply;
      }
    }
  }
}
