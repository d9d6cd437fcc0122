/** What `compile` promises about the queues and settings it builds. */
module CompilerProperties {
  import opened Wrappers
  import opened Text
  import opened Commands
  import opened Compiler

  ghost predicate AllCoherent(ls: seq<Line>)
  {
    forall i :: 0 <= i < |ls| ==> Coherent(ls[i])
  }

  predicate AllAccepted(ls: seq<Line>)
  {
    forall i :: 0 <= i < |ls| ==> ls[i].parsed.Success?
  }

  /** The queue a table holds for `id`, or none yet. */
  function Prior(t: Table, id: Id): seq<Command>
  {
    if id in t.queues then t.queues[id] else []
  }

  /** The command an accepted line gives to plane `id`, if any. */
  function LineCommands(id: Id, l: Line): seq<Command>
  {
    match l.parsed
    case Success(Enqueue(x, c)) => if x == id then [c] else []
    case _ => []
  }

  /** The commands the lines give to plane `id`, in source order. */
  function CommandsFor(id: Id, ls: seq<Line>): seq<Command>
  {
    if ls == [] then [] else LineCommands(id, ls[0]) + CommandsFor(id, ls[1..])
  }

  /** The planes an accepted line names: the subject of `init plane`,
      `goto`, `give`, `wait` and `view`, and the recipients of `give`. */
  function LineMentions(l: Line): set<Id>
  {
    match l.parsed
    case Success(Declare(x)) => {x}
    case Success(Enqueue(x, c)) => {x} + set r | r in Recipients(c)
    case _ => {}
  }

  function Mentioned(ls: seq<Line>): set<Id>
  {
    if ls == [] then {} else LineMentions(ls[0]) + Mentioned(ls[1..])
  }

  /** What a line leaves in setting `k`. */
  function SettingAfter(k: Setting, l: Line, prior: nat): nat
  {
    match l.parsed
    case Success(Set(k', v)) => if k' == k then v else prior
    case _ => prior
  }

  /** The value the last line setting `k` gives it, or `prior` if no line
      does, read from the end of the program. */
  function LastSetting(k: Setting, ls: seq<Line>, prior: nat): nat
  {
    if ls == [] then prior
    else
      match ls[|ls| - 1].parsed
      case Success(Set(k', v)) =>
        if k' == k then v else LastSetting(k, ls[..|ls| - 1], prior)
      case _ => LastSetting(k, ls[..|ls| - 1], prior)
  }

  lemma TailCoherent(ls: seq<Line>)
    requires ls != [] && AllCoherent(ls)
    ensures Coherent(ls[0]) && AllCoherent(ls[1..])
  {
    forall i | 0 <= i < |ls[1..]| ensures Coherent(ls[1..][i]) {
      assert ls[1..][i] == ls[i + 1];
    }
  }

  lemma TailAccepted(ls: seq<Line>)
    requires ls != [] && AllAccepted(ls)
    ensures ls[0].parsed.Success? && AllAccepted(ls[1..])
  {
    forall i | 0 <= i < |ls[1..]| ensures ls[1..][i].parsed.Success? {
      assert ls[1..][i] == ls[i + 1];
    }
  }

  /** A pushed command lands at the end of its subject's queue, and the
      recipients it names get (empty) queues. */
  lemma EnqueueQueue(t: Table, x: Id, c: Command, id: Id)
    requires x in t.queues && id in RegisterAll(Push(t, x, c), Recipients(c)).queues
    ensures RegisterAll(Push(t, x, c), Recipients(c)).queues[id] == Prior(t, id) + (if id == x then [c] else [])
  {
    var p := Push(t, x, c);
    if id == x {
      assert p.queues[x] == Prior(t, x) + [c];
    } else if id in t.queues {
      assert p.queues[id] == t.queues[id];
    }
  }

  lemma CompileEnqueueLine(t: Table, s: Settings, l: Line)
    requires Consistent(t) && RecipientsKnown(t.queues) && Coherent(l)
    requires l.parsed.Success? && l.parsed.value.Enqueue?
    ensures CompileLine(t, s, l).table ==
      var x, c := l.parsed.value.subject, l.parsed.value.cmd;
      RegisterAll(Push(Register(t, x), x, c), Recipients(c))
  {
    var x := l.parsed.value.subject;
    assert l.registers == Some(x);
    assert CompileLine(t, s, l).table == Apply(Register(t, x), l.parsed.value);
  }

  lemma CompileOtherLine(t: Table, s: Settings, l: Line)
    requires Consistent(t) && RecipientsKnown(t.queues) && Coherent(l)
    requires l.parsed.Success? && !l.parsed.value.Enqueue?
    ensures CompileLine(t, s, l).table == Apply(t, l.parsed.value)
  {
  }

  lemma CompileLineQueue(t: Table, s: Settings, l: Line, id: Id)
    requires Consistent(t) && RecipientsKnown(t.queues) && Coherent(l)
    requires l.parsed.Success? && id in CompileLine(t, s, l).table.queues
    ensures CompileLine(t, s, l).table.queues[id] == Prior(t, id) + LineCommands(id, l)
  {
    if l.parsed.value.Enqueue? {
      EnqueueLineQueue(t, s, l, id);
    } else {
      CompileOtherLine(t, s, l);
    }
  }

  lemma EnqueueLineQueue(t: Table, s: Settings, l: Line, id: Id)
    requires Consistent(t) && RecipientsKnown(t.queues) && Coherent(l)
    requires l.parsed.Success? && l.parsed.value.Enqueue? && id in CompileLine(t, s, l).table.queues
    ensures CompileLine(t, s, l).table.queues[id] == Prior(t, id) + LineCommands(id, l)
  {
    CompileEnqueueLine(t, s, l);
    RegisteredQueue(t, l.parsed.value.subject, l.parsed.value.cmd, id);
  }

  lemma RegisteredQueue(t: Table, x: Id, c: Command, id: Id)
    requires id in RegisterAll(Push(Register(t, x), x, c), Recipients(c)).queues
    ensures RegisterAll(Push(Register(t, x), x, c), Recipients(c)).queues[id] ==
      Prior(t, id) + (if id == x then [c] else [])
  {
    var t1 := Register(t, x);
    EnqueueQueue(t1, x, c, id);
    assert Prior(t1, id) == Prior(t, id);
  }

  lemma CompileLineKeys(t: Table, s: Settings, l: Line)
    requires Consistent(t) && RecipientsKnown(t.queues) && Coherent(l)
    requires l.parsed.Success?
    ensures CompileLine(t, s, l).error.None?
    ensures CompileLine(t, s, l).table.queues.Keys == t.queues.Keys + LineMentions(l)
    ensures CompileLine(t, s, l).settings == Adjust(s, l.parsed.value)
  {
  }

  /** One accepted line: its names get queues, its command goes to the end
      of its subject's queue, its setting (if any) is stored. */
  lemma CompileLineAccepted(t: Table, s: Settings, l: Line)
    requires Consistent(t) && RecipientsKnown(t.queues) && Coherent(l)
    requires l.parsed.Success?
    ensures CompileLine(t, s, l).error.None?
    ensures CompileLine(t, s, l).table.queues.Keys == t.queues.Keys + LineMentions(l)
    ensures forall id :: id in CompileLine(t, s, l).table.queues ==>
      CompileLine(t, s, l).table.queues[id] == Prior(t, id) + LineCommands(id, l)
    ensures CompileLine(t, s, l).settings == Adjust(s, l.parsed.value)
  {
    CompileLineKeys(t, s, l);
    forall id | id in CompileLine(t, s, l).table.queues
      ensures CompileLine(t, s, l).table.queues[id] == Prior(t, id) + LineCommands(id, l)
    {
      CompileLineQueue(t, s, l, id);
    }
  }

  /** After accepted lines every named plane has a queue and no other plane
      gains one. */
  lemma {:induction false} CompiledKeys(t: Table, s: Settings, ls: seq<Line>)
    requires Consistent(t) && RecipientsKnown(t.queues) && AllCoherent(ls)
    requires AllAccepted(ls)
    ensures CompileLines(t, s, ls).error.None?
    ensures CompileLines(t, s, ls).table.queues.Keys == t.queues.Keys + Mentioned(ls)
    decreases |ls|
  {
    if ls != [] {
      TailCoherent(ls);
      TailAccepted(ls);
      CompileLineKeys(t, s, ls[0]);
      var c := CompileLine(t, s, ls[0]);
      CompiledKeys(c.table, c.settings, ls[1..]);
    }
  }

  /** An accepted first line hands its table and settings on to the rest. */
  lemma CompileLinesStep(t: Table, s: Settings, ls: seq<Line>)
    requires Consistent(t) && RecipientsKnown(t.queues) && AllCoherent(ls)
    requires ls != [] && ls[0].parsed.Success?
    ensures AllCoherent(ls[1..])
    ensures CompileLine(t, s, ls[0]).error.None?
    ensures CompileLines(t, s, ls) ==
      CompileLines(CompileLine(t, s, ls[0]).table, CompileLine(t, s, ls[0]).settings, ls[1..])
  {
    TailCoherent(ls);
    CompileLineKeys(t, s, ls[0]);
  }

  /** A plane that an accepted line gives a command to has a queue after it. */
  lemma CommandedHasQueue(t: Table, s: Settings, l: Line, id: Id)
    requires Consistent(t) && RecipientsKnown(t.queues) && Coherent(l)
    requires l.parsed.Success? && id !in CompileLine(t, s, l).table.queues
    ensures Prior(t, id) == [] && LineCommands(id, l) == []
  {
    CompileLineKeys(t, s, l);
    assert id !in t.queues && id !in LineMentions(l);
  }

  /** What the first line puts in a queue comes before what the rest add. */
  lemma QueueStep(t: Table, c: Table, ls: seq<Line>, id: Id, q: seq<Command>)
    requires ls != []
    requires id in c.queues ==> c.queues[id] == Prior(t, id) + LineCommands(id, ls[0])
    requires id !in c.queues ==> Prior(t, id) == [] && LineCommands(id, ls[0]) == []
    requires q == Prior(c, id) + CommandsFor(id, ls[1..])
    ensures q == Prior(t, id) + CommandsFor(id, ls)
  {
    var pre, line, rest := Prior(t, id), LineCommands(id, ls[0]), CommandsFor(id, ls[1..]);
    assert CommandsFor(id, ls) == line + rest;
    if id in c.queues {
      assert Prior(c, id) == pre + line;
      ConcatAssoc3(pre, line, rest);
    } else {
      assert Prior(c, id) == [] && pre == [] && line == [];
      assert line + rest == rest;
      assert pre + rest == rest;
    }
  }

  lemma ConcatAssoc3(a: seq<Command>, b: seq<Command>, c: seq<Command>)
    ensures (a + b) + c == a + (b + c)
  {
  }

  /** After accepted lines each queue is what it held before followed by the
      commands the lines gave that plane, in source order. */
  lemma {:induction false} CompiledQueues(t: Table, s: Settings, ls: seq<Line>)
    requires Consistent(t) && RecipientsKnown(t.queues) && AllCoherent(ls)
    requires AllAccepted(ls)
    ensures forall id :: id in CompileLines(t, s, ls).table.queues ==>
      CompileLines(t, s, ls).table.queues[id] == Prior(t, id) + CommandsFor(id, ls)
    decreases |ls|
  {
    if ls != [] {
      TailAccepted(ls);
      CompileLinesStep(t, s, ls);
      var c := CompileLine(t, s, ls[0]);
      CompiledQueues(c.table, c.settings, ls[1..]);
      var r := CompileLines(c.table, c.settings, ls[1..]).table;
      forall id | id in r.queues
        ensures r.queues[id] == Prior(t, id) + CommandsFor(id, ls)
      {
        if id in c.table.queues {
          CompileLineQueue(t, s, ls[0], id);
        } else {
          CommandedHasQueue(t, s, ls[0], id);
        }
        QueueStep(t, c.table, ls, id, r.queues[id]);
      }
    }
  }

  /** Compiling stops at the first refused line and reports its error; the
      settings are those the lines before it left, since a refused line
      stores none. */
  lemma {:induction false} FirstErrorReported(t: Table, s: Settings, ls: seq<Line>, i: nat)
    requires Consistent(t) && RecipientsKnown(t.queues) && AllCoherent(ls)
    requires i < |ls| && AllAccepted(ls[..i]) && ls[i].parsed.Failure?
    ensures CompileLines(t, s, ls).error == Some(ls[i].parsed.error)
    ensures AllCoherent(ls[..i]) && CompileLines(t, s, ls).settings == CompileLines(t, s, ls[..i]).settings
    decreases i
  {
    TailCoherent(ls);
    PrefixCoherent(ls, i);
    if i > 0 {
      assert ls[..i][0] == ls[0];
      CompileLineAccepted(t, s, ls[0]);
      var c := CompileLine(t, s, ls[0]);
      assert ls[1..][..i - 1] == ls[..i][1..];
      TailAccepted(ls[..i]);
      FirstErrorReported(c.table, c.settings, ls[1..], i - 1);
      CompileLinesStep(t, s, ls[..i]);
    } else {
      assert ls[..i] == [];
    }
  }

  lemma PrefixCoherent(ls: seq<Line>, i: nat)
    requires AllCoherent(ls) && i <= |ls|
    ensures AllCoherent(ls[..i])
  {
    assert forall j :: 0 <= j < i ==> ls[..i][j] == ls[j];
  }

  /** Compiling succeeds exactly when every line is accepted. */
  lemma {:induction false} CompileSucceedsIffAccepted(t: Table, s: Settings, ls: seq<Line>)
    requires Consistent(t) && RecipientsKnown(t.queues) && AllCoherent(ls)
    ensures CompileLines(t, s, ls).error.None? <==> AllAccepted(ls)
    decreases |ls|
  {
    if AllAccepted(ls) {
      CompiledKeys(t, s, ls);
    } else {
      TailCoherent(ls);
      if ls[0].parsed.Success? {
        CompileLineAccepted(t, s, ls[0]);
        var c := CompileLine(t, s, ls[0]);
        assert !AllAccepted(ls[1..]) by {
          var i :| 0 <= i < |ls| && ls[i].parsed.Failure?;
          assert ls[1..][i - 1] == ls[i];
        }
        CompileSucceedsIffAccepted(c.table, c.settings, ls[1..]);
      }
    }
  }

  /** A comment line anywhere in a program changes nothing. */
  lemma {:induction false} CommentsAddNothing(t: Table, s: Settings, before: seq<Line>, comment: Line, after: seq<Line>)
    requires Consistent(t) && RecipientsKnown(t.queues)
    requires AllCoherent(before) && AllCoherent(after)
    requires Coherent(comment) && comment.parsed == Success(Comment)
    ensures AllCoherent(before + [comment] + after) && AllCoherent(before + after)
    ensures CompileLines(t, s, before + [comment] + after) == CompileLines(t, s, before + after)
    decreases |before|
  {
    var with, without := before + [comment] + after, before + after;
    CoherentInsert(before, comment, after);
    if before == [] {
      assert with[1..] == after && without == after;
      assert CompileLine(t, s, comment) == Compiled(t, s, None);
    } else {
      TailCoherent(before);
      var c := CompileLine(t, s, before[0]);
      assert with[0] == before[0] && without[0] == before[0];
      if c.error.None? {
        assert with[1..] == before[1..] + [comment] + after;
        assert without[1..] == before[1..] + after;
        CommentsAddNothing(c.table, c.settings, before[1..], comment, after);
      }
    }
  }

  lemma CoherentInsert(before: seq<Line>, comment: Line, after: seq<Line>)
    requires AllCoherent(before) && AllCoherent(after) && Coherent(comment)
    ensures AllCoherent(before + [comment] + after) && AllCoherent(before + after)
  {
    var with, without := before + [comment] + after, before + after;
    forall i | 0 <= i < |with| ensures Coherent(with[i]) {
      if i < |before| { assert with[i] == before[i]; }
      else if i > |before| { assert with[i] == after[i - |before| - 1]; }
    }
    forall i | 0 <= i < |without| ensures Coherent(without[i]) {
      if i < |before| { assert without[i] == before[i]; }
      else { assert without[i] == after[i - |before|]; }
    }
  }

  lemma {:induction false} LastSettingFirst(k: Setting, l: Line, rest: seq<Line>, prior: nat)
    ensures LastSetting(k, [l] + rest, prior) == LastSetting(k, rest, SettingAfter(k, l, prior))
    decreases |rest|
  {
    var all := [l] + rest;
    if rest == [] {
      assert all[..0] == [];
    } else {
      assert all[|all| - 1] == rest[|rest| - 1];
      assert all[..|all| - 1] == [l] + rest[..|rest| - 1];
      LastSettingFirst(k, l, rest[..|rest| - 1], prior);
    }
  }

  /** Storing an accepted line's setting, read back. */
  lemma AdjustGet(s: Settings, l: Line, k: Setting)
    requires l.parsed.Success?
    ensures Get(Adjust(s, l.parsed.value), k) == SettingAfter(k, l, Get(s, k))
  {
  }

  /** The setting after the first line, carried through the rest. */
  lemma SettingsStep(t: Table, s: Settings, ls: seq<Line>, k: Setting)
    requires Consistent(t) && RecipientsKnown(t.queues) && AllCoherent(ls)
    requires ls != [] && ls[0].parsed.Success?
    ensures Get(CompileLine(t, s, ls[0]).settings, k) == SettingAfter(k, ls[0], Get(s, k))
    ensures LastSetting(k, ls[1..], Get(CompileLine(t, s, ls[0]).settings, k)) == LastSetting(k, ls, Get(s, k))
  {
    CompileLineKeys(t, s, ls[0]);
    AdjustGet(s, ls[0], k);
    assert [ls[0]] + ls[1..] == ls;
    LastSettingFirst(k, ls[0], ls[1..], Get(s, k));
  }

  /** After accepted lines each setting holds the value of the last line
      that set it, or what it held before when no line did. */
  lemma {:induction false} CompiledSettings(t: Table, s: Settings, ls: seq<Line>, k: Setting)
    requires Consistent(t) && RecipientsKnown(t.queues) && AllCoherent(ls)
    requires AllAccepted(ls)
    ensures Get(CompileLines(t, s, ls).settings, k) == LastSetting(k, ls, Get(s, k))
    decreases |ls|
  {
    if ls != [] {
      TailAccepted(ls);
      CompileLinesStep(t, s, ls);
      var c := CompileLine(t, s, ls[0]);
      CompiledSettings(c.table, c.settings, ls[1..], k);
      SettingsStep(t, s, ls, k);
    }
  }

  /** A whole accepted program: its named planes and no others have queues,
      each holding that plane's commands in source order, and every setting
      is the last value given, else the value the previous compile left,
      else its default (24, 12, 500). */
  lemma CompileProgram(text: string, prior: Settings, k: Setting)
    requires AllAccepted(Read(Lines(text)))
    ensures Compile(text, prior).error.None?
    ensures Compile(text, prior).table.queues.Keys == Mentioned(Read(Lines(text)))
    ensures forall id :: id in Compile(text, prior).table.queues ==>
      Compile(text, prior).table.queues[id] == CommandsFor(id, Read(Lines(text)))
    ensures Get(Compile(text, prior).settings, k) ==
      var v := LastSetting(k, Read(Lines(text)), Get(prior, k)); if v == 0 then Default(k) else v
  {
    CompileReadProgram(Read(Lines(text)), prior, k);
  }

  /** `CompileProgram` on read lines. */
  lemma CompileReadProgram(ls: seq<Line>, prior: Settings, k: Setting)
    requires AllCoherent(ls) && AllAccepted(ls)
    ensures CompileRead(ls, prior).error.None?
    ensures CompileRead(ls, prior).table.queues.Keys == Mentioned(ls)
    ensures forall id :: id in CompileRead(ls, prior).table.queues ==>
      CompileRead(ls, prior).table.queues[id] == CommandsFor(id, ls)
    ensures Get(CompileRead(ls, prior).settings, k) ==
      var v := LastSetting(k, ls, Get(prior, k)); if v == 0 then Default(k) else v
  {
    CompiledKeys(EmptyTable, prior, ls);
    CompiledQueues(EmptyTable, prior, ls);
    CompiledSettings(EmptyTable, prior, ls, k);
  }

  /** A program fails to compile exactly when one of its lines is refused,
      and the error is that of the first such line. */
  lemma CompileFails(text: string, prior: Settings, i: nat, k: Setting)
    requires i < |Lines(text)|
    requires AllAccepted(Read(Lines(text))[..i]) && Read(Lines(text))[i].parsed.Failure?
    ensures Compile(text, prior).error == Some(Read(Lines(text))[i].parsed.error)
    ensures Get(Compile(text, prior).settings, k) == LastSetting(k, Read(Lines(text))[..i], Get(prior, k))
  {
    var ls := Read(Lines(text));
    FirstErrorReported(EmptyTable, prior, ls, i);
    CompiledSettings(EmptyTable, prior, ls[..i], k);
  }

  /** The planes an accepted line names, in the order it names them. */
  function LineNames(l: Line): seq<Id>
  {
    match l.parsed
    case Success(Declare(x)) => [x]
    case Success(Enqueue(x, c)) => [x] + Recipients(c)
    case _ => []
  }

  /** The planes the lines name, in the order the program names them. */
  function NamesIn(ls: seq<Line>): seq<Id>
  {
    if ls == [] then [] else LineNames(ls[0]) + NamesIn(ls[1..])
  }

  /** Where `x` first occurs in `ids`. */
  function FirstIndex(x: Id, ids: seq<Id>): (i: nat)
    requires x in ids
    ensures i < |ids| && ids[i] == x && x !in ids[..i]
  {
    if ids[0] == x then 0 else 1 + FirstIndex(x, ids[1..])
  }

  /** `NewNames` lists each name of `ids` outside `known` once, and in the
      order of its first occurrence. */
  lemma {:induction false} NewNamesOrder(known: set<Id>, ids: seq<Id>)
    ensures Distinct(NewNames(known, ids))
    ensures forall x :: x in NewNames(known, ids) <==> x in ids && x !in known
    ensures forall i, j :: 0 <= i < j < |NewNames(known, ids)| ==>
      FirstIndex(NewNames(known, ids)[i], ids) < FirstIndex(NewNames(known, ids)[j], ids)
    decreases |ids|
  {
    if ids != [] {
      var r := NewNames(known, ids);
      var k := if ids[0] in known then known else known + {ids[0]};
      var rest := NewNames(k, ids[1..]);
      NewNamesOrder(k, ids[1..]);
      forall x | x in rest ensures FirstIndex(x, ids) == 1 + FirstIndex(x, ids[1..]) {
        assert x != ids[0];
      }
      if ids[0] in known {
        assert r == rest;
      } else {
        assert r == [ids[0]] + rest;
        assert forall i :: 0 < i < |r| ==> r[i] == rest[i - 1];
      }
    }
  }

  lemma {:induction false} NewNamesAppend(known: set<Id>, a: seq<Id>, b: seq<Id>)
    ensures NewNames(known, a + b) == NewNames(known, a) + NewNames(known + (set x | x in a), b)
    decreases |a|
  {
    if a == [] {
      assert a + b == b;
      assert known + (set x | x in a) == known;
    } else {
      assert (a + b)[0] == a[0] && (a + b)[1..] == a[1..] + b;
      var k := if a[0] in known then known else known + {a[0]};
      NewNamesAppend(k, a[1..], b);
      assert k + (set x | x in a[1..]) == known + (set x | x in a);
    }
  }

  /** An accepted line appends the planes it is first to name to `ids`. */
  lemma CompileLineOrder(t: Table, s: Settings, l: Line)
    requires Consistent(t) && RecipientsKnown(t.queues) && Coherent(l)
    requires l.parsed.Success?
    ensures CompileLine(t, s, l).table.ids == t.ids + NewNames(t.queues.Keys, LineNames(l))
  {
    var d := l.parsed.value;
    if d.Enqueue? {
      CompileEnqueueLine(t, s, l);
      EnqueueOrder(t, d.subject, Recipients(d.cmd), d.cmd);
    } else {
      CompileOtherLine(t, s, l);
      if d.Declare? {
        assert [d.subject][1..] == [];
      }
    }
  }

  lemma EnqueueOrder(t: Table, x: Id, recv: seq<Id>, c: Command)
    requires recv == Recipients(c)
    ensures RegisterAll(Push(Register(t, x), x, c), recv).ids == t.ids + NewNames(t.queues.Keys, [x] + recv)
  {
    var t1 := Register(t, x);
    var p := Push(t1, x, c);
    assert p.ids == t1.ids && p.queues.Keys == t.queues.Keys + {x};
    assert RegisterAll(p, recv).ids == t1.ids + NewNames(t.queues.Keys + {x}, recv);
    NewNamesCons(t.queues.Keys, x, recv);
    if x in t.queues {
      assert t.queues.Keys + {x} == t.queues.Keys;
    } else {
      var rest := NewNames(t.queues.Keys + {x}, recv);
      assert NewNames(t.queues.Keys, [x] + recv) == [x] + rest;
      assert t1.ids == t.ids + [x];
      ConcatAssoc(t.ids, [x], rest);
    }
  }

  lemma ConcatAssoc(a: seq<Id>, b: seq<Id>, c: seq<Id>)
    ensures (a + b) + c == a + (b + c)
  {
  }

  lemma NewNamesCons(known: set<Id>, x: Id, ids: seq<Id>)
    ensures NewNames(known, [x] + ids) ==
      if x in known then NewNames(known, ids) else [x] + NewNames(known + {x}, ids)
  {
    assert ([x] + ids)[0] == x && ([x] + ids)[1..] == ids;
  }

  lemma {:induction false} CompiledOrder(t: Table, s: Settings, ls: seq<Line>)
    requires Consistent(t) && RecipientsKnown(t.queues) && AllCoherent(ls)
    requires AllAccepted(ls)
    ensures CompileLines(t, s, ls).table.ids == t.ids + NewNames(t.queues.Keys, NamesIn(ls))
    decreases |ls|
  {
    if ls != [] {
      CompileLinesStep(t, s, ls);
      TailAccepted(ls);
      var c := CompileLine(t, s, ls[0]);
      CompileLineOrder(t, s, ls[0]);
      CompileLineKeys(t, s, ls[0]);
      LineNamesMentions(ls[0]);
      CompiledOrder(c.table, c.settings, ls[1..]);
      var first, rest := LineNames(ls[0]), NamesIn(ls[1..]);
      assert NamesIn(ls) == first + rest;
      OrderJoin(t.ids, t.queues.Keys, c.table, first, rest, CompileLines(t, s, ls).table.ids);
    }
  }

  lemma LineNamesMentions(l: Line)
    ensures (set x | x in LineNames(l)) == LineMentions(l)
  {
    match l.parsed
    case Success(Declare(x)) =>
    case Success(Enqueue(x, c)) =>
      assert LineNames(l) == [x] + Recipients(c);
    case _ =>
  }

  /** The names a line adds, then the names the lines after it add, are
      the names the whole program adds. */
  lemma OrderJoin(ids: seq<Id>, known: set<Id>, c: Table, first: seq<Id>, rest: seq<Id>, r: seq<Id>)
    requires c.ids == ids + NewNames(known, first)
    requires c.queues.Keys == known + (set x | x in first)
    requires r == c.ids + NewNames(c.queues.Keys, rest)
    ensures r == ids + NewNames(known, first + rest)
  {
    NewNamesAppend(known, first, rest);
    ConcatAssoc(ids, NewNames(known, first), NewNames(c.queues.Keys, rest));
  }

  /** An accepted program registers its planes in the order it first names
      them, each once: this is the order `restart` builds the planes in. */
  lemma CompileOrder(text: string, prior: Settings)
    requires AllAccepted(Read(Lines(text)))
    ensures Compile(text, prior).table.ids == NewNames({}, NamesIn(Read(Lines(text))))
  {
    CompileReadOrder(Read(Lines(text)), prior);
  }

  lemma CompileReadOrder(ls: seq<Line>, prior: Settings)
    requires AllCoherent(ls) && AllAccepted(ls)
    ensures CompileRead(ls, prior).table.ids == NewNames({}, NamesIn(ls))
  {
    CompiledKeys(EmptyTable, prior, ls);
    CompiledOrder(EmptyTable, prior, ls);
    var c := CompileLines(EmptyTable, prior, ls);
    assert CompileRead(ls, prior).table == c.table;
    assert EmptyTable.queues.Keys == {};
    var names := NewNames({}, NamesIn(ls));
    assert c.table.ids == [] + names;
    assert [] + names == names;
  }

  /** A plane name as programs write it: a lower-case word that does not
      start a comment and holds no comma. */
  predicate PlainName(x: string)
  {
    Word(x) && x[0] != '@' && ',' !in x
  }

  /** A line of three words is parsed as those three tokens. */
  lemma ParseThree(a: string, b: string, c: string)
    requires Word(a) && Word(b) && Word(c)
    ensures ParseLine(a + " " + b + " " + c) == ParseTokens([a, b, c])
  {
    TokensOfThree(a, b, c);
  }

  lemma ParseFive(a: string, b: string, c: string, d: string, e: string)
    requires Word(a) && Word(b) && Word(c) && Word(d) && Word(e)
    ensures ParseLine(a + " " + b + " " + c + " " + d + " " + e) == ParseTokens([a, b, c, d, e])
  {
    TokensOfFive(a, b, c, d, e);
  }

  /** The `switch (operator)` of a line that is not a comment picks the
      case its second token names. */
  lemma DispatchInit(toks: seq<string>)
    requires |toks| >= 2 && toks[0] != [] && toks[0][0] != '@' && toks[1] == "init"
    ensures ParseTokens(toks) == ParseInit(toks)
  {
    assert !IsComment(toks);
    var op := Token(toks, 1);
    assert op == Some("init");
  }

  lemma DispatchGoto(toks: seq<string>)
    requires |toks| >= 2 && toks[0] != [] && toks[0][0] != '@' && toks[1] == "goto"
    ensures ParseTokens(toks) == ParseGoto(toks)
  {
    assert !IsComment(toks);
    var op := Token(toks, 1);
    assert op == Some("goto");
    assert op != Some("init");
  }

  lemma DispatchGive(toks: seq<string>)
    requires |toks| >= 2 && toks[0] != [] && toks[0][0] != '@' && toks[1] == "give"
    ensures ParseTokens(toks) == ParseGive(toks)
  {
    assert !IsComment(toks);
    var op := Token(toks, 1);
    assert op == Some("give");
    assert op != Some("init") && op != Some("goto");
  }

  lemma DispatchWait(toks: seq<string>)
    requires |toks| >= 2 && toks[0] != [] && toks[0][0] != '@' && toks[1] == "wait"
    ensures ParseTokens(toks) == ParseWait(toks)
  {
    assert !IsComment(toks);
    var op := Token(toks, 1);
    assert op == Some("wait");
    assert op != Some("init") && op != Some("goto") && op != Some("give");
  }

  lemma DispatchView(toks: seq<string>)
    requires |toks| >= 2 && toks[0] != [] && toks[0][0] != '@' && toks[1] == "view"
    ensures ParseTokens(toks) == ParseView(toks)
  {
    assert !IsComment(toks);
    var op := Token(toks, 1);
    assert op == Some("view");
    assert op != Some("init") && op != Some("goto") && op != Some("give") && op != Some("wait");
  }

  /** `<x> goto <n>` queues a move of `x` to position `n`. */
  lemma ParseGotoLine(x: Id, n: int)
    requires PlainName(x)
    ensures ParseLine(x + " goto " + IntToString(n)) == Success(Enqueue(x, Goto(n)))
  {
    IntToStringWord(n);
    ToNumberOfIntToString(n);
    GotoSpelled(x, IntToString(n));
    GotoTokens(x, IntToString(n));
  }

  /** A `goto` line of words reads as its three tokens. */
  lemma GotoSpelled(x: Id, v: string)
    requires PlainName(x) && Word(v)
    ensures ParseLine(x + " goto " + v) == ParseGoto([x, "goto", v])
  {
    assert x + " goto " + v == x + " " + "goto" + " " + v;
    assert Word("goto");
    ParseThree(x, "goto", v);
    DispatchGoto([x, "goto", v]);
  }

  lemma GotoTokens(x: Id, v: string)
    ensures ParseGoto([x, "goto", v]) ==
      if ToNumber(v).Some? then Success(Enqueue(x, Goto(ToNumber(v).value))) else Failure(BadGotoArg(Some(v)))
  {
    assert Token([x, "goto", v], 2) == Some(v);
  }

  /** `<x> wait <n>` queues a wait of `n` turns when `n` is positive ... */
  lemma ParseWaitLine(x: Id, n: int)
    requires PlainName(x) && n > 0
    ensures ParseLine(x + " wait " + IntToString(n)) == Success(Enqueue(x, Wait(n)))
  {
    var v := IntToString(n);
    IntToStringWord(n);
    ToNumberOfIntToString(n);
    WaitSpelled(x, v);
    WaitTokens(x, v);
  }

  /** ... and is refused otherwise. */
  lemma ParseWaitRefused(x: Id, n: int)
    requires PlainName(x) && n <= 0
    ensures ParseLine(x + " wait " + IntToString(n)) == Failure(BadWaitArg(Some(IntToString(n))))
  {
    var v := IntToString(n);
    IntToStringWord(n);
    ToNumberOfIntToString(n);
    WaitSpelled(x, v);
    WaitTokens(x, v);
  }

  /** A `wait` line of words reads as its three tokens. */
  lemma WaitSpelled(x: Id, v: string)
    requires PlainName(x) && Word(v)
    ensures ParseLine(x + " wait " + v) == ParseWait([x, "wait", v])
  {
    assert x + " wait " + v == x + " " + "wait" + " " + v;
    assert Word("wait");
    ParseThree(x, "wait", v);
    DispatchWait([x, "wait", v]);
  }

  lemma WaitTokens(x: Id, v: string)
    ensures ParseWait([x, "wait", v]) ==
      if IsPositiveInt(v) then Success(Enqueue(x, Wait(ToNumber(v).value))) else Failure(BadWaitArg(Some(v)))
  {
    assert Token([x, "wait", v], 2) == Some(v);
  }

  /** `<x> view <tag>` queues setting the colour tag of `x` to `tag`. */
  lemma ParseViewLine(x: Id, tag: string)
    requires PlainName(x) && Word(tag)
    ensures ParseLine(x + " view " + tag) == Success(Enqueue(x, View(tag)))
  {
    assert x + " view " + tag == x + " " + "view" + " " + tag;
    assert Word("view");
    ParseThree(x, "view", tag);
    DispatchView([x, "view", tag]);
    ViewTokens(x, tag);
  }

  lemma ViewTokens(x: Id, tag: string)
    requires tag != [] && !IsSpace(tag[0])
    ensures ParseView([x, "view", tag]) == Success(Enqueue(x, View(tag)))
  {
    assert Token([x, "view", tag], 2) == Some(tag);
    assert !AllSpace(tag);
  }

  /** `<x> give <a> to <r1>,<r2>,...` queues a transfer of `a` units to each
      named recipient, in the order written. */
  lemma ParseGiveLine(x: Id, a: int, rs: seq<Id>)
    requires PlainName(x)
    requires |rs| >= 1 && forall i :: 0 <= i < |rs| ==> PlainName(rs[i])
    ensures ParseLine(x + " give " + IntToString(a) + " to " + Join(rs, ',')) == Success(Enqueue(x, Give(a, rs)))
  {
    IntToStringWord(a);
    ToNumberOfIntToString(a);
    GiveWords(x, IntToString(a), a, rs);
  }

  lemma GiveWords(x: Id, v: string, a: int, rs: seq<Id>)
    requires PlainName(x) && Word(v) && ToNumber(v) == Some(a)
    requires |rs| >= 1 && forall i :: 0 <= i < |rs| ==> PlainName(rs[i])
    ensures ParseLine(x + " give " + v + " to " + Join(rs, ',')) == Success(Enqueue(x, Give(a, rs)))
  {
    PlainNamesJoin(rs);
    GiveText(x, v, Join(rs, ','));
  }

  /** Plain names joined by commas form a word that splits back into them. */
  lemma PlainNamesJoin(rs: seq<Id>)
    requires |rs| >= 1 && forall i :: 0 <= i < |rs| ==> PlainName(rs[i])
    ensures Word(Join(rs, ',')) && Split(Join(rs, ','), ',') == rs
  {
    JoinWord(rs, ',');
    SplitJoin(rs, ',');
  }

  /** A `give` line of words reads as its five tokens. */
  lemma GiveText(x: Id, v: string, j: string)
    requires PlainName(x) && Word(v) && Word(j) && ToNumber(v).Some?
    ensures ParseLine(x + " give " + v + " to " + j) == Success(Enqueue(x, Give(ToNumber(v).value, Split(j, ','))))
  {
    GiveSpelled(x, v, j);
    ParseGiveTokens(x, v, j);
  }

  lemma GiveSpelled(x: Id, v: string, j: string)
    requires PlainName(x) && Word(v) && Word(j)
    ensures ParseLine(x + " give " + v + " to " + j) == ParseTokens([x, "give", v, "to", j])
  {
    Spaced5(x, "give", v, "to", j);
    assert " give " == " " + "give" + " ";
    assert " to " == " " + "to" + " ";
    assert Word("give") && Word("to");
    ParseFive(x, "give", v, "to", j);
  }

  lemma Spaced5(a: string, b: string, c: string, d: string, e: string)
    ensures a + " " + b + " " + c + " " + d + " " + e == a + (" " + b + " ") + c + (" " + d + " ") + e
  {
  }

  lemma ParseGiveTokens(x: Id, v: string, j: string)
    requires x != [] && x[0] != '@' && ToNumber(v).Some? && j != [] && !IsSpace(j[0])
    ensures ParseTokens([x, "give", v, "to", j]) == Success(Enqueue(x, Give(ToNumber(v).value, Split(j, ','))))
  {
    DispatchGive([x, "give", v, "to", j]);
    GiveTokens(x, v, j);
    assert !AllSpace(j) by {
      assert !IsSpace(j[0]);
    }
  }

  /** The `give` case on five tokens. */
  lemma GiveTokens(x: Id, v: string, j: string)
    ensures ParseGive([x, "give", v, "to", j]) ==
      if ToNumber(v).None? then Failure(BadGiveAmount(v))
      else if |Trim(j)| == 0 then Failure(EmptyGiveRecipients)
      else Success(Enqueue(x, Give(ToNumber(v).value, Split(j, ','))))
  {
    GiveTail([x, "give", v, "to", j], j);
  }

  /** The text after `to` in a five-token `give` is its last token. */
  lemma GiveTail(toks: seq<string>, j: string)
    requires |toks| == 5 && toks[3] == "to" && toks[4] == j
    ensures Token(toks, 3) == Some("to") && Concat(toks[4..]) == j && Join(toks[4..], ' ') == j
  {
    assert toks[4..] == [j];
  }

  /** `<n> init time`, `fuel` or `anim` sets that setting to a positive `n`. */
  lemma ParseSetLine(k: Setting, n: int)
    requires n > 0
    ensures ParseLine(IntToString(n) + " init " + SettingName(k)) == Success(Set(k, n))
  {
    var v := IntToString(n);
    IntToStringWord(n);
    ToNumberOfIntToString(n);
    SetSpelled(v, k);
    SetTokens(v, k);
  }

  /** An `init` line of a setting reads as its three tokens. */
  lemma SetSpelled(v: string, k: Setting)
    requires Word(v) && v[0] != '@'
    ensures ParseLine(v + " init " + SettingName(k)) == ParseInit([v, "init", SettingName(k)])
  {
    var name := SettingName(k);
    assert v + " init " + name == v + " " + "init" + " " + name;
    assert Word("init");
    assert Word(name) by {
      match k
      case Time => assert name == "time";
      case Fuel => assert name == "fuel";
      case Anim => assert name == "anim";
    }
    ParseThree(v, "init", name);
    DispatchInit([v, "init", name]);
  }

  lemma SetTokens(v: string, k: Setting)
    ensures ParseInit([v, "init", SettingName(k)]) == ParseSetting(k, v)
  {
    var toks := [v, "init", SettingName(k)];
    match k
    case Time => assert Token(toks, 2) == Some("time");
    case Fuel => assert Token(toks, 2) == Some("fuel");
    case Anim => assert Token(toks, 2) == Some("anim");
  }

  /** `<x> init plane` declares `x`. */
  lemma ParseDeclareLine(x: Id)
    requires PlainName(x)
    ensures ParseLine(x + " init plane") == Success(Declare(x))
  {
    assert x + " init plane" == x + " " + "init" + " " + "plane";
    assert Word("init") && Word("plane");
    ParseThree(x, "init", "plane");
    DispatchInit([x, "init", "plane"]);
    DeclareTokens(x);
  }

  lemma DeclareTokens(x: Id)
    ensures ParseInit([x, "init", "plane"]) == Success(Declare(x))
  {
    assert Token([x, "init", "plane"], 2) == Some("plane");
  }
}
