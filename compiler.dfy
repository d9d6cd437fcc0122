/** The program compiler (`compile` in script.js): program text becomes one
    FIFO command queue per plane, in first-registration order, plus the
    three settings kept in `sim`. This module is its specification as
    functions; `Engine.Compile` runs it in place and is proved equal to it. */
module Compiler {
  import opened Wrappers
  import opened Text
  import opened Commands

  datatype Setting = Time | Fuel | Anim

  /** `sim.time` (track size), `sim.fuel` (fuel capacity) and `sim.anim`.
      0 stands for a setting that was never given: `sim` starts as `{}`,
      every value ever stored is a positive integer, so `!sim.time` holds
      exactly for 0 here. */
  datatype Settings = Settings(time: nat, fuel: nat, anim: nat)

  function Get(s: Settings, k: Setting): nat
  {
    match k
    case Time => s.time
    case Fuel => s.fuel
    case Anim => s.anim
  }

  function Put(s: Settings, k: Setting, v: nat): Settings
  {
    match k
    case Time => s.(time := v)
    case Fuel => s.(fuel := v)
    case Anim => s.(anim := v)
  }

  /** The word an `init` line uses for a setting. */
  function SettingName(k: Setting): string
  {
    match k
    case Time => "time"
    case Fuel => "fuel"
    case Anim => "anim"
  }

  /** The value a setting takes after compiling when no line gave one. */
  function Default(k: Setting): nat
  {
    match k
    case Time => 24
    case Fuel => 12
    case Anim => 500
  }

  /** What one accepted line asks for. */
  datatype Directive =
    | Comment
    | Declare(subject: Id)
    | Set(setting: Setting, value: nat)
    | Enqueue(subject: Id, cmd: Command)

  /** The strings `compile` throws, one case per `throw`; `None` is a token
      that is missing (`undefined` in the destructuring of script.js:71).
      `MissingViewArg` is the TypeError raised by `arg2.trim()` when a
      `view` line has no third token. */
  datatype CompileError =
    | BadSetting(setting: Setting, value: string)
    | BadInitTarget(arg: Option<string>)
    | BadGotoArg(arg: Option<string>)
    | BadGiveModifier(modifier: Option<string>)
    | BadGiveAmount(amount: string)
    | EmptyGiveRecipients
    | BadWaitArg(arg: Option<string>)
    | MissingViewArg
    | EmptyViewArg
    | BadOperator(operator: Option<string>)

  function Token(toks: seq<string>, i: nat): Option<string>
  {
    if i < |toks| then Some(toks[i]) else None
  }

  predicate IsComment(toks: seq<string>)
    requires |toks| >= 1
  {
    |toks[0]| > 0 && toks[0][0] == '@'
  }

  /** The operators that register their subject's queue before they check
      their arguments. */
  predicate RegistersSubject(toks: seq<string>)
    requires |toks| >= 1
  {
    !IsComment(toks) && Token(toks, 1) in {Some("goto"), Some("give"), Some("wait"), Some("view")}
  }

  /** The planes a command names besides its subject. */
  function Recipients(c: Command): seq<Id>
  {
    if c.Give? then c.recv else []
  }

  /** The shape of every directive the compiler accepts. */
  predicate ValidDirective(d: Directive)
  {
    match d
    case Comment => true
    case Declare(_) => true
    case Set(_, v) => v > 0
    case Enqueue(_, c) =>
      match c
      case Goto(_) => true
      case Give(_, recv) => |recv| >= 1
      case Wait(t) => t > 0
      case View(tag) => !AllSpace(tag)
  }

  /** The lines `compile` throws on, listed condition by condition. */
  ghost predicate Rejected(toks: seq<string>)
    requires |toks| >= 1
  {
    var op := Token(toks, 1);
    && !IsComment(toks)
    && (if op == Some("init") then InitRefused(toks)
        else if op == Some("goto") then GotoRefused(toks)
        else if op == Some("give") then GiveRefused(toks)
        else if op == Some("wait") then WaitRefused(toks)
        else if op == Some("view") then ViewRefused(toks)
        else true)
  }

  /** `init` names no known target, or sets a setting to a value that is
      not a positive integer. */
  ghost predicate InitRefused(toks: seq<string>)
    requires |toks| >= 1
  {
    var arg := Token(toks, 2);
    || arg !in {Some("plane"), Some("time"), Some("fuel"), Some("anim")}
    || (arg in {Some("time"), Some("fuel"), Some("anim")} && !IsPositiveInt(toks[0]))
  }

  /** `goto` has no destination, or one that is not a number. */
  ghost predicate GotoRefused(toks: seq<string>)
  {
    var arg := Token(toks, 2);
    arg.None? || ToNumber(arg.value).None?
  }

  /** `give` lacks the `to`, or its amount is not a number, or nothing but
      blanks follows the `to`. */
  ghost predicate GiveRefused(toks: seq<string>)
  {
    || |toks| < 4 || toks[3] != "to"
    || ToNumber(toks[2]).None?
    || AllSpace(Concat(toks[4..]))
  }

  /** `wait` has no count, or one that is not a positive integer. */
  ghost predicate WaitRefused(toks: seq<string>)
  {
    var arg := Token(toks, 2);
    arg.None? || !IsPositiveInt(arg.value)
  }

  /** `view` has no tag, or a blank one. */
  ghost predicate ViewRefused(toks: seq<string>)
  {
    var arg := Token(toks, 2);
    arg.None? || AllSpace(arg.value)
  }

  function ParseSetting(k: Setting, subject: string): Result<Directive, CompileError>
  {
    if IsPositiveInt(subject) then Success(Set(k, ToNumber(subject).value))
    else Failure(BadSetting(k, subject))
  }

  /** The `switch (operator)` of one tokenised line (script.js:71-143). */
  function ParseTokens(toks: seq<string>): (r: Result<Directive, CompileError>)
    requires |toks| >= 1
    ensures r == Success(Comment) <==> IsComment(toks)
    ensures r.Success? ==> ValidDirective(r.value)
    ensures r.Success? && (r.value.Declare? || r.value.Enqueue?) ==> r.value.subject == toks[0]
    ensures r.Success? ==> (r.value.Enqueue? <==> RegistersSubject(toks))
    ensures r.Failure? ==> (RaisedAfterRegistering(r.error) <==> RegistersSubject(toks))
  {
    if IsComment(toks) then Success(Comment)
    else
      var op := Token(toks, 1);
      if op == Some("init") then ParseInit(toks)
      else if op == Some("goto") then ParseGoto(toks)
      else if op == Some("give") then ParseGive(toks)
      else if op == Some("wait") then ParseWait(toks)
      else if op == Some("view") then ParseView(toks)
      else Failure(BadOperator(op))
  }

  /** The errors of the operators that register their subject first. */
  predicate RaisedAfterRegistering(e: CompileError)
  {
    || e.BadGotoArg? || e.BadGiveModifier? || e.BadGiveAmount? || e.EmptyGiveRecipients?
    || e.BadWaitArg? || e.MissingViewArg? || e.EmptyViewArg?
  }

  /** What a parsed command line holds: a valid command for the subject. */
  predicate EnqueuesFor(toks: seq<string>, r: Result<Directive, CompileError>)
    requires |toks| >= 1
  {
    r.Success? ==> ValidDirective(r.value) && r.value.Enqueue? && r.value.subject == toks[0]
  }

  /** `case "init"`: declares a plane or sets one of the three settings. */
  function ParseInit(toks: seq<string>): (r: Result<Directive, CompileError>)
    requires |toks| >= 1
    ensures r.Success? ==> ValidDirective(r.value) && (r.value.Declare? || r.value.Set?)
    ensures r.Success? && r.value.Declare? ==> r.value.subject == toks[0]
    ensures r.Success? && r.value.Set? ==> Some(r.value.value as int) == ToNumber(toks[0])
    ensures r.Success? && r.value.Set? ==> Token(toks, 2) == Some(SettingName(r.value.setting))
    ensures r.Success? ==> (r.value.Declare? <==> Token(toks, 2) == Some("plane"))
    ensures r.Failure? ==> r.error.BadInitTarget? || r.error.BadSetting?
  {
    var arg := Token(toks, 2);
    if arg == Some("plane") then Success(Declare(toks[0]))
    else if arg == Some("time") then ParseSetting(Time, toks[0])
    else if arg == Some("fuel") then ParseSetting(Fuel, toks[0])
    else if arg == Some("anim") then ParseSetting(Anim, toks[0])
    else Failure(BadInitTarget(arg))
  }

  /** `case "goto"`. */
  function ParseGoto(toks: seq<string>): (r: Result<Directive, CompileError>)
    requires |toks| >= 1
    ensures EnqueuesFor(toks, r)
    ensures r.Success? ==> |toks| >= 3 && r.value.cmd.Goto? && Some(r.value.cmd.dest) == ToNumber(toks[2])
    ensures r.Failure? ==> r.error.BadGotoArg?
  {
    var arg := Token(toks, 2);
    if arg.Some? && ToNumber(arg.value).Some? then
      Success(Enqueue(toks[0], Goto(ToNumber(arg.value).value)))
    else Failure(BadGotoArg(arg))
  }

  /** `case "give"`: the recipients are the tokens after `to`, joined and
      split on commas. */
  function ParseGive(toks: seq<string>): (r: Result<Directive, CompileError>)
    requires |toks| >= 1
    ensures EnqueuesFor(toks, r)
    ensures r.Success? ==> |toks| >= 5 && r.value.cmd.Give? && Some(r.value.cmd.amount) == ToNumber(toks[2])
    ensures r.Success? ==> Join(r.value.cmd.recv, ',') == Join(toks[4..], ' ')
    ensures r.Success? ==> forall i :: 0 <= i < |r.value.cmd.recv| ==> ',' !in r.value.cmd.recv[i]
    ensures r.Failure? ==> r.error.BadGiveModifier? || r.error.BadGiveAmount? || r.error.EmptyGiveRecipients?
  {
    if Token(toks, 3) != Some("to") then Failure(BadGiveModifier(Token(toks, 3)))
    else if ToNumber(toks[2]).None? then Failure(BadGiveAmount(toks[2]))
    else if |Trim(Concat(toks[4..]))| == 0 then Failure(EmptyGiveRecipients)
    else Success(Enqueue(toks[0], Give(ToNumber(toks[2]).value, Split(Join(toks[4..], ' '), ','))))
  }

  /** `case "wait"`. */
  function ParseWait(toks: seq<string>): (r: Result<Directive, CompileError>)
    requires |toks| >= 1
    ensures EnqueuesFor(toks, r)
    ensures r.Success? ==> |toks| >= 3 && r.value.cmd.Wait? && Some(r.value.cmd.time) == ToNumber(toks[2])
    ensures r.Failure? ==> r.error.BadWaitArg?
  {
    var arg := Token(toks, 2);
    if arg.Some? && IsPositiveInt(arg.value) then
      Success(Enqueue(toks[0], Wait(ToNumber(arg.value).value)))
    else Failure(BadWaitArg(arg))
  }

  /** `case "view"`. */
  function ParseView(toks: seq<string>): (r: Result<Directive, CompileError>)
    requires |toks| >= 1
    ensures EnqueuesFor(toks, r)
    ensures r.Success? ==> |toks| >= 3 && r.value.cmd == View(toks[2])
    ensures r.Failure? ==> r.error.MissingViewArg? || r.error.EmptyViewArg?
  {
    var arg := Token(toks, 2);
    if arg.None? then Failure(MissingViewArg)
    else if |Trim(arg.value)| == 0 then Failure(EmptyViewArg)
    else Success(Enqueue(toks[0], View(arg.value)))
  }

  /** A line is refused exactly under the conditions listed in `Rejected`. */
  lemma ParseRejects(toks: seq<string>)
    requires |toks| >= 1
    ensures ParseTokens(toks).Failure? <==> Rejected(toks)
  {
    var op := Token(toks, 1);
    if IsComment(toks) {
    } else if op == Some("init") {
      InitRejects(toks);
    } else if op == Some("goto") {
      assert ParseTokens(toks) == ParseGoto(toks);
    } else if op == Some("give") {
      GiveRejects(toks);
    } else if op == Some("wait") {
      assert ParseTokens(toks) == ParseWait(toks);
    } else if op == Some("view") {
      assert ParseTokens(toks) == ParseView(toks);
    }
  }

  lemma InitRejects(toks: seq<string>)
    requires |toks| >= 1
    ensures ParseInit(toks).Failure? <==> InitRefused(toks)
  {
    var arg := Token(toks, 2);
    if arg !in {Some("plane"), Some("time"), Some("fuel"), Some("anim")} {
      assert ParseInit(toks).Failure?;
    } else if arg == Some("plane") {
      assert ParseInit(toks).Success?;
    }
  }

  lemma GiveRejects(toks: seq<string>)
    requires |toks| >= 1
    ensures ParseGive(toks).Failure? <==> GiveRefused(toks)
  {
    if |toks| >= 4 && toks[3] == "to" {
      assert Token(toks, 3) == Some("to");
    }
  }

  function ParseLine(line: string): Result<Directive, CompileError>
  {
    ParseTokens(Tokens(line))
  }

  /** The `queues` dictionary with its keys in first-registration order. */
  datatype Table = Table(queues: map<Id, seq<Command>>, ids: seq<Id>)

  const EmptyTable := Table(map[], [])

  /** `ids` lists exactly the keys of `queues`, each once. */
  ghost predicate Consistent(t: Table)
  {
    Distinct(t.ids) && (forall id :: id in t.queues <==> id in t.ids)
  }

  /** `if (!queues[id]) queues[id] = [];` */
  function Register(t: Table, id: Id): (r: Table)
    ensures r.queues.Keys == t.queues.Keys + {id}
    ensures forall x :: x in t.queues ==> r.queues[x] == t.queues[x]
    ensures id !in t.queues ==> r.queues[id] == []
    ensures r.ids == if id in t.queues then t.ids else t.ids + [id]
    ensures Consistent(t) ==> Consistent(r)
  {
    if id in t.queues then t else Table(t.queues[id := []], t.ids + [id])
  }

  /** Registration of every name in `ids`, left to right (the `forEach` of
      script.js:120). */
  function RegisterAll(t: Table, ids: seq<Id>): (r: Table)
    ensures r.queues.Keys == t.queues.Keys + set x | x in ids
    ensures forall x :: x in t.queues ==> r.queues[x] == t.queues[x]
    ensures forall x :: x in r.queues && x !in t.queues ==> r.queues[x] == []
    ensures r.ids == t.ids + NewNames(t.queues.Keys, ids)
    ensures Consistent(t) ==> Consistent(r)
    decreases |ids|
  {
    if ids == [] then t
    else
      var t1 := Register(t, ids[0]);
      assert t1.queues.Keys == t.queues.Keys + {ids[0]};
      RegisterAll(t1, ids[1..])
  }

  /** The names of `ids` that are not in `known`, each once, in the order of
      their first occurrence. */
  function NewNames(known: set<Id>, ids: seq<Id>): seq<Id>
    decreases |ids|
  {
    if ids == [] then []
    else if ids[0] in known then NewNames(known, ids[1..])
    else [ids[0]] + NewNames(known + {ids[0]}, ids[1..])
  }

  /** `queues[id].push(c)` */
  function Push(t: Table, id: Id, c: Command): Table
    requires id in t.queues
  {
    Table(t.queues[id := t.queues[id] + [c]], t.ids)
  }

  /** The effect of an accepted directive on the queues. */
  function Apply(t: Table, d: Directive): Table
    requires d.Enqueue? ==> d.subject in t.queues
  {
    match d
    case Comment => t
    case Set(_, _) => t
    case Declare(x) => Register(t, x)
    case Enqueue(x, c) => RegisterAll(Push(t, x, c), Recipients(c))
  }

  /** The effect of an accepted directive on `sim`. */
  function Adjust(s: Settings, d: Directive): Settings
  {
    if d.Set? then Put(s, d.setting, d.value) else s
  }

  /** The queues, the settings and the error (if one was thrown) after some
      lines ran. On an error the queues and settings are left as the lines
      before it, and the failing line's own registration, made them. */
  datatype Compiled = Compiled(table: Table, settings: Settings, error: Option<CompileError>)

  /** One program line as the loop body sees it: the plane whose queue its
      operator registers before checking anything (goto, give, wait, view),
      and the directive or the error of its `switch`. */
  datatype Line = Line(registers: Option<Id>, parsed: Result<Directive, CompileError>)

  /** The facts about a read line that the compile loop relies on. */
  ghost predicate Coherent(l: Line)
  {
    l.parsed.Success? ==>
      && ValidDirective(l.parsed.value)
      && (l.parsed.value.Enqueue? <==> l.registers.Some?)
      && (l.parsed.value.Enqueue? ==> l.registers == Some(l.parsed.value.subject))
  }

  /** A line registers its subject, the first token, before its `switch`
      when the line holds a command, and also when the `switch` then throws
      one of the command operators' errors. */
  function ReadLine(line: string): (l: Line)
    ensures Coherent(l)
    ensures l.parsed == ParseLine(line)
    ensures l.registers.Some? <==>
      (l.parsed.Success? && l.parsed.value.Enqueue?) || (l.parsed.Failure? && RaisedAfterRegistering(l.parsed.error))
    ensures l.registers.Some? ==> l.registers.value == Tokens(line)[0]
  {
    var toks := Tokens(line);
    Line(if RegistersSubject(toks) then Some(toks[0]) else None, ParseTokens(toks))
  }

  /** Every line of the program, read. */
  function Read(lines: seq<string>): (ls: seq<Line>)
    ensures |ls| == |lines|
    ensures forall i :: 0 <= i < |ls| ==> Coherent(ls[i])
  {
    if lines == [] then [] else [ReadLine(lines[0])] + Read(lines[1..])
  }

  lemma {:induction false} ReadAt(lines: seq<string>, i: nat)
    requires i < |lines|
    ensures Read(lines)[i] == ReadLine(lines[i])
  {
    if i > 0 {
      ReadAt(lines[1..], i - 1);
    }
  }

  /** One pass of the `for (const line of lines)` body. */
  function CompileLine(t: Table, s: Settings, l: Line): (r: Compiled)
    requires Consistent(t) && RecipientsKnown(t.queues) && Coherent(l)
    ensures Consistent(r.table) && RecipientsKnown(r.table.queues)
    ensures t.queues.Keys <= r.table.queues.Keys
  {
    var t1 := if l.registers.Some? then Register(t, l.registers.value) else t;
    RegisterKeepsKnown(t, if l.registers.Some? then l.registers.value else "");
    match l.parsed
    case Failure(e) => Compiled(t1, s, Some(e))
    case Success(d) =>
      var t2 := Apply(t1, d);
      ApplyKeepsKnown(t1, d);
      Compiled(t2, Adjust(s, d), None)
  }

  lemma RegisterKeepsKnown(t: Table, id: Id)
    requires RecipientsKnown(t.queues)
    ensures RecipientsKnown(Register(t, id).queues)
  {
    var r := Register(t, id);
    forall x, c | x in r.queues && c in r.queues[x] ensures RecipientsIn(c, r.queues.Keys) {
      assert x in t.queues && c in t.queues[x];
      assert RecipientsIn(c, t.queues.Keys);
    }
  }

  lemma {:induction false} RegisterAllKeepsKnown(t: Table, ids: seq<Id>)
    requires RecipientsKnown(t.queues)
    ensures RecipientsKnown(RegisterAll(t, ids).queues)
    decreases |ids|
  {
    if ids != [] {
      RegisterKeepsKnown(t, ids[0]);
      RegisterAllKeepsKnown(Register(t, ids[0]), ids[1..]);
    }
  }

  lemma ApplyKeepsKnown(t: Table, d: Directive)
    requires d.Enqueue? ==> d.subject in t.queues
    requires RecipientsKnown(t.queues)
    ensures RecipientsKnown(Apply(t, d).queues)
  {
    match d
    case Comment =>
    case Set(_, _) =>
    case Declare(x) => RegisterKeepsKnown(t, x);
    case Enqueue(x, c) =>
      var p := Push(t, x, c);
      var r := RegisterAll(p, Recipients(c));
      RegisterAllKeepsKnown(t, []);
      forall y, c' | y in r.queues && c' in r.queues[y] ensures RecipientsIn(c', r.queues.Keys) {
        if y in t.queues && c' in t.queues[y] {
          assert RecipientsIn(c', t.queues.Keys);
        } else {
          assert y == x && c' == c;
        }
      }
  }

  /** The loop over the lines, stopping at the first throw. */
  function CompileLines(t: Table, s: Settings, lines: seq<Line>): (r: Compiled)
    requires Consistent(t) && RecipientsKnown(t.queues)
    requires forall i :: 0 <= i < |lines| ==> Coherent(lines[i])
    ensures Consistent(r.table) && RecipientsKnown(r.table.queues)
    ensures t.queues.Keys <= r.table.queues.Keys
    decreases |lines|
  {
    if lines == [] then Compiled(t, s, None)
    else
      var c := CompileLine(t, s, lines[0]);
      if c.error.Some? then c else CompileLines(c.table, c.settings, lines[1..])
  }

  /** The loop from line `i` on: that line, then the rest unless it threw. */
  lemma CompileLinesAt(t: Table, s: Settings, ls: seq<Line>, i: nat)
    requires Consistent(t) && RecipientsKnown(t.queues)
    requires forall j :: 0 <= j < |ls| ==> Coherent(ls[j])
    requires i < |ls|
    ensures CompileLines(t, s, ls[i..]) ==
      var c := CompileLine(t, s, ls[i]);
      if c.error.Some? then c else CompileLines(c.table, c.settings, ls[i + 1..])
  {
    assert ls[i..][0] == ls[i] && ls[i..][1..] == ls[i + 1..];
  }

  /** `if (!sim.time) sim.time = 24;` and the two lines after it: a setting
      no line gave takes its default, the others keep their value. */
  function WithDefaults(s: Settings): (r: Settings)
    ensures forall k :: Get(r, k) == if Get(s, k) == 0 then Default(k) else Get(s, k)
    ensures r.time > 0 && r.fuel > 0 && r.anim > 0
  {
    Settings(if s.time == 0 then Default(Time) else s.time,
             if s.fuel == 0 then Default(Fuel) else s.fuel,
             if s.anim == 0 then Default(Anim) else s.anim)
  }

  /** The lines, then the defaults, which a throw skips. */
  function CompileRead(ls: seq<Line>, prior: Settings): (r: Compiled)
    requires forall i :: 0 <= i < |ls| ==> Coherent(ls[i])
    ensures Consistent(r.table) && RecipientsKnown(r.table.queues)
    ensures r.error.None? ==> r.settings.time > 0 && r.settings.fuel > 0 && r.settings.anim > 0
  {
    var c := CompileLines(EmptyTable, prior, ls);
    if c.error.Some? then c else c.(settings := WithDefaults(c.settings))
  }

  /** `compile()` on the program text, with the `sim` left by the previous
      compile: fresh queues, the lines in order, then the defaults. */
  function Compile(text: string, prior: Settings): (r: Compiled)
    ensures Consistent(r.table) && RecipientsKnown(r.table.queues)
    ensures r.error.None? ==> r.settings.time > 0 && r.settings.fuel > 0 && r.settings.anim > 0
  {
    CompileRead(Read(Lines(text)), prior)
  }
}
