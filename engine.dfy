/** The program's global state (`queues`, `planes` and `sim` in script.js)
    as one object, with `compile`, `restart`, `runSubstep` and the stepping
    part of `runStep` as methods that update it in place. Each method is
    proved to do exactly what the matching function of `Compiler` or
    `Simulation` describes. */
module Runner {
  import opened Wrappers
  import opened Text
  import opened Commands
  import opened Compiler
  import opened Simulation

  /** A method's outcome read as the `Effect` of a command. */
  function AsEffect(w: World, chain: bool, thrown: Option<Violation>): Effect
  {
    if thrown.Some? then Thrown(w, thrown.value) else Done(w, chain)
  }

  /** A served result with earlier planes' action folded in. */
  function After(acted: bool, r: Served): Served
  {
    Served(r.w, acted || r.acted, r.thrown)
  }

  class Engine {
    /** `queues`, with `ids` holding its keys in registration order. */
    var queues: map<Id, seq<Command>>
    var ids: seq<Id>
    var planes: map<Id, Plane>
    var sim: Settings

    function State(): World
      reads this
    {
      World(queues, ids, planes, sim)
    }

    function Queues(): Table
      reads this
    {
      Table(queues, ids)
    }

    /** `let queues = {}; let planes = {}; let sim = {};` */
    constructor ()
      ensures State() == World(map[], [], map[], Settings(0, 0, 0))
    {
      queues, ids := map[], [];
      planes := map[];
      sim := Settings(0, 0, 0);
    }

    /** `if (!queues[id]) queues[id] = [];` */
    method Register(id: Id)
      modifies this
      ensures Queues() == Compiler.Register(old(Queues()), id)
      ensures planes == old(planes) && sim == old(sim)
    {
      if id !in queues {
        queues := queues[id := []];
        ids := ids + [id];
      }
    }

    /** The registration of every name of a `give` (script.js:120). */
    method RegisterRecipients(recv: seq<Id>)
      modifies this
      ensures Queues() == RegisterAll(old(Queues()), recv)
      ensures planes == old(planes) && sim == old(sim)
    {
      for j := 0 to |recv|
        invariant RegisterAll(old(Queues()), recv) == RegisterAll(Queues(), recv[j..])
        invariant planes == old(planes) && sim == old(sim)
      {
        assert recv[j..][1..] == recv[j + 1..];
        Register(recv[j]);
      }
    }

    /** One pass of the loop body of `compile`. */
    method CompileOne(l: Line) returns (err: Option<CompileError>)
      requires Consistent(Queues()) && RecipientsKnown(queues) && Coherent(l)
      modifies this
      ensures CompileLine(old(Queues()), old(sim), l) == Compiled(Queues(), sim, err)
      ensures planes == old(planes)
    {
      if l.registers.Some? {
        Register(l.registers.value);
      }
      match l.parsed
      case Failure(e) =>
        err := Some(e);
      case Success(d) =>
        err := None;
        match d
        case Comment =>
        case Declare(x) =>
          Register(x);
        case Set(k, v) =>
          sim := Put(sim, k, v);
        case Enqueue(x, c) =>
          queues := queues[x := queues[x] + [c]];
          if c.Give? {
            RegisterRecipients(c.recv);
          } else {
            assert Queues() == RegisterAll(Queues(), []);
          }
    }

    /** `line.toLowerCase().split(" ")` and the `switch` on its tokens, for
        line `i` of the program. */
    static method ReadLineAt(lines: seq<string>, i: nat) returns (l: Line)
      requires i < |lines|
      ensures l == Read(lines)[i]
    {
      ReadAt(lines, i);
      l := ReadLine(lines[i]);
    }

    /** The `for (const line of lines)` loop of `compile`, on fresh queues,
        stopping at the first line that throws. */
    method CompileLinesOf(lines: seq<string>) returns (err: Option<CompileError>)
      modifies this
      ensures CompileLines(EmptyTable, old(sim), Read(lines)) == Compiled(Queues(), sim, err)
      ensures planes == old(planes)
    {
      ghost var ls := Read(lines);
      queues, ids := map[], [];
      var i := 0;
      while i < |lines|
        invariant 0 <= i <= |lines|
        invariant Consistent(Queues()) && RecipientsKnown(queues)
        invariant CompileLines(EmptyTable, old(sim), ls) == CompileLines(Queues(), sim, ls[i..])
        invariant planes == old(planes)
      {
        var l := ReadLineAt(lines, i);
        CompileLinesAt(Queues(), sim, ls, i);
        err := CompileOne(l);
        if err.Some? {
          return;
        }
        i := i + 1;
      }
      err := None;
    }

    /** `compile()`: the lines, then the defaults for the settings still
        unset, which a throw skips. `sim` is not cleared. */
    method Compile(text: string) returns (err: Option<CompileError>)
      modifies this
      ensures Compiler.Compile(text, old(sim)) == Compiled(Queues(), sim, err)
      ensures planes == old(planes)
    {
      err := CompileLinesOf(Lines(text));
      if err.None? {
        if sim.time == 0 { sim := sim.(time := Default(Time)); }
        if sim.fuel == 0 { sim := sim.(fuel := Default(Fuel)); }
        if sim.anim == 0 { sim := sim.(anim := Default(Anim)); }
      }
    }

    /** The plane set-up loop of `restart` (script.js:170-185), after
        `planes = {}`. */
    method Reset()
      requires Consistent(Queues())
      modifies this
      ensures State() == Simulation.Reset(old(Queues()), old(sim))
    {
      planes := map[];
      for i := 0 to |ids|
        invariant ids == old(ids) && sim == old(sim)
        invariant Fleet(queues, planes) == SetUp(old(queues), ids[..i], sim.fuel)
      {
        var id := ids[i];
        assert ids[..i + 1][..i] == ids[..i] && ids[..i + 1][i] == id;
        queues := queues[id := queues[id] + [Goto(0)]];
        planes := planes[id := Plane(0, sim.fuel, None)];
      }
      assert ids[..|ids|] == ids;
    }

    /** `restart()` without its display work: forget the planes, compile,
        and on success set up every plane. */
    method Restart(text: string) returns (err: Option<CompileError>)
      modifies this
      ensures var c := Compiler.Compile(text, old(sim));
        && err == c.error
        && (if c.error.Some? then State() == World(c.table.queues, c.table.ids, map[], c.settings)
            else State() == Simulation.Reset(c.table, c.settings))
    {
      planes := map[];
      err := Compile(text);
      if err.None? {
        Reset();
      }
    }

    /** The `goto` case of `runSubstep`. */
    method RunGoto(id: Id) returns (chain: bool, thrown: Option<Violation>)
      requires Ready(State(), id) && queues[id][0].Goto?
      modifies this
      ensures ExecGoto(old(State()), id) == AsEffect(State(), chain, thrown)
    {
      chain, thrown := false, None;
      ghost var w := State();
      var n := sim.time;
      var p := planes[id];
      var dest := Wrap(queues[id][0].dest, n);
      var delta := dest - p.pos;
      var dist := Abs(delta);
      if dist == 0 {
        queues := queues[id := queues[id][1..]];
        chain := true;
        assert State() == Dequeue(w, id);
        return;
      }
      if p.fuel <= 0 {
        thrown := Some(OutOfFuel(id));
        return;
      }
      var pos := p.pos;
      if 2 * dist <= n { pos := pos + Sign(delta); } else { pos := pos - Sign(delta); }
      pos := Wrap(pos, n);
      planes := planes[id := p.(pos := pos, fuel := p.fuel - 1)];
      ghost var w1 := State();
      if pos == dest {
        queues := queues[id := queues[id][1..]];
        assert State() == Dequeue(w1, id);
      }
    }

    /** The `for (const id of cmd.recv)` loop of a `give` by plane `giver`
        at position `at`. */
    method CreditAll(at: int, recv: seq<Id>, amount: int, giver: Id) returns (v: Option<Violation>)
      modifies this
      ensures queues == old(queues) && ids == old(ids) && sim == old(sim)
      ensures (planes, v) == Credit(old(planes), at, recv, amount, giver)
    {
      v := None;
      for j := 0 to |recv|
        invariant queues == old(queues) && ids == old(ids) && sim == old(sim)
        invariant Credit(old(planes), at, recv, amount, giver) == Credit(planes, at, recv[j..], amount, giver)
      {
        assert recv[j..][0] == recv[j] && recv[j..][1..] == recv[j + 1..];
        var x := recv[j];
        if x !in planes {
          v := Some(NoSuchPlane(x));
          return;
        }
        if planes[x].pos != at {
          v := Some(TooFarApart(giver, x));
          return;
        }
        planes := planes[x := planes[x].(fuel := planes[x].fuel + amount)];
      }
    }

    /** The `give` case of `runSubstep`. */
    method RunGive(id: Id) returns (chain: bool, thrown: Option<Violation>)
      requires Ready(State(), id) && queues[id][0].Give?
      modifies this
      ensures ExecGive(old(State()), id) == AsEffect(State(), chain, thrown)
    {
      chain, thrown := false, None;
      var c := queues[id][0];
      var p := planes[id];
      var total := c.amount * |c.recv|;
      if p.fuel < total {
        thrown := Some(CannotGive(id, c.amount, |c.recv|, p.fuel));
        return;
      }
      planes := planes[id := p.(fuel := p.fuel - total)];
      thrown := CreditAll(p.pos, c.recv, c.amount, id);
      if thrown.Some? {
        return;
      }
      ghost var w1 := State();
      queues := queues[id := queues[id][1..]];
      chain := true;
      assert State() == Dequeue(w1, id);
    }

    /** The `wait` case of `runSubstep`: `cmd.time--` is the front of the
        queue replaced by its decremented copy. */
    method RunWait(id: Id) returns (chain: bool, thrown: Option<Violation>)
      requires Ready(State(), id) && queues[id][0].Wait?
      modifies this
      ensures ExecWait(old(State()), id) == AsEffect(State(), chain, thrown)
    {
      chain, thrown := false, None;
      var t := queues[id][0].time;
      var p := planes[id];
      if t >= 0 {
        queues := queues[id := [Wait(t - 1)] + queues[id][1..]];
        if p.pos != 0 {
          if p.fuel <= 0 {
            thrown := Some(CannotWait(id));
            return;
          }
          planes := planes[id := p.(fuel := p.fuel - 1)];
        }
        return;
      }
      queues := queues[id := queues[id][1..]];
      chain := true;
    }

    /** The `view` case of `runSubstep`. */
    method RunView(id: Id) returns (chain: bool, thrown: Option<Violation>)
      requires Ready(State(), id) && queues[id][0].View?
      modifies this
      ensures ExecView(old(State()), id) == AsEffect(State(), chain, thrown)
    {
      chain, thrown := false, None;
      planes := planes[id := planes[id].(color := Some(queues[id][0].color))];
      queues := queues[id := queues[id][1..]];
    }

    /** The `switch (cmd.type)` of `runSubstep`. */
    method RunFront(id: Id) returns (chain: bool, thrown: Option<Violation>)
      requires Ready(State(), id)
      modifies this
      ensures Exec(old(State()), id) == AsEffect(State(), chain, thrown)
    {
      match queues[id][0] {
        case Goto(_) => chain, thrown := RunGoto(id);
        case Give(_, _) => chain, thrown := RunGive(id);
        case Wait(_) => chain, thrown := RunWait(id);
        case View(_) => chain, thrown := RunView(id);
      }
    }

    /** One pass of the `while (!stop)` body for a plane with a nonempty
        queue: the refuel at base, then the front command if it is of kind
        `k`. `stop` is the loop's flag afterwards. */
    method ServeOnce(id: Id, k: Kind) returns (stop: bool, acted: bool, thrown: Option<Violation>)
      requires sim.time > 0 && id in queues && queues[id] != []
      modifies this
      ensures sim == old(sim) && id in queues
      ensures |queues[id]| <= |old(queues)[id]|
      ensures !stop ==> |queues[id]| < |old(queues)[id]| && thrown.None?
      ensures Serve(old(State()), id, k) ==
        if stop then Served(State(), acted, thrown) else After(acted, Serve(State(), id, k))
    {
      if id !in planes {
        stop, acted, thrown := true, false, Some(NoSuchPlane(id));
        return;
      }
      ghost var w := State();
      if planes[id].pos == 0 {
        planes := planes[id := planes[id].(fuel := sim.fuel)];
      }
      ghost var w1 := State();
      assert w1 == Refuel(w, id);
      if KindOf(queues[id][0]) != k {
        stop, acted, thrown := true, false, None;
        return;
      }
      stop, thrown := ActFront(id, k);
      acted := true;
    }

    /** `action = true` and the front command, which is of kind `k`. */
    method ActFront(id: Id, k: Kind) returns (stop: bool, thrown: Option<Violation>)
      requires Ready(State(), id) && sim.time > 0
      modifies this
      ensures sim == old(sim) && id in queues
      ensures |queues[id]| <= |old(queues)[id]|
      ensures !stop ==> |queues[id]| < |old(queues)[id]| && thrown.None?
      ensures Act(old(State()), id, k) ==
        if stop then Served(State(), true, thrown) else After(true, Serve(State(), id, k))
    {
      ghost var w := State();
      ExecKeeps(w, id);
      var chain, t := RunFront(id);
      assert Act(w, id, k) ==
        if t.Some? then Served(State(), true, t)
        else if chain then After(true, Serve(State(), id, k))
        else Served(State(), true, None);
      stop, thrown := !chain || t.Some?, t;
    }

    /** The `while (!stop)` loop of `runSubstep` for one plane. */
    method ServePlane(id: Id, k: Kind) returns (acted: bool, thrown: Option<Violation>)
      requires sim.time > 0 && id in queues
      modifies this
      ensures Serve(old(State()), id, k) == Served(State(), acted, thrown)
    {
      acted, thrown := false, None;
      var stop := false;
      while !stop
        invariant sim == old(sim) && id in queues && (!stop ==> thrown.None?)
        invariant Serve(old(State()), id, k) ==
          if stop then Served(State(), acted, thrown) else After(acted, Serve(State(), id, k))
        decreases |queues[id]| + (if stop then 0 else 1)
      {
        if |queues[id]| == 0 {
          stop := true;
        } else {
          var a;
          stop, a, thrown := ServeOnce(id, k);
          acted := acted || a;
        }
      }
    }

    /** `runSubstep(type)`: every plane in registration order. */
    method RunSubstep(k: Kind) returns (acted: bool, thrown: Option<Violation>)
      requires Runnable(State())
      modifies this
      ensures Phase(old(State()), k) == Served(State(), acted, thrown)
    {
      acted, thrown := false, None;
      var order := ids;
      for i := 0 to |order|
        invariant ids == order && Runnable(State())
        invariant Phase(old(State()), k) == After(acted, ServeAll(State(), order[i..], k))
      {
        assert order[i..][0] == order[i] && order[i..][1..] == order[i + 1..];
        var a, t := ServePlane(order[i], k);
        acted := acted || a;
        if t.Some? {
          thrown := t;
          return;
        }
      }
      assert order[|order|..] == [];
    }

    /** The stepping logic of `runStep`: the four phases in order, the rest
        skipped after a throw, then the outcome. */
    method RunStep() returns (result: StepResult)
      requires Runnable(State())
      modifies this
      ensures Step(old(State())) == Stepped(State(), result)
    {
      var a1, t1 := RunSubstep(GotoKind);
      if t1.Some? { return Failed(t1.value); }
      var a2, t2 := RunSubstep(GiveKind);
      if t2.Some? { return Failed(t2.value); }
      var a3, t3 := RunSubstep(WaitKind);
      if t3.Some? { return Failed(t3.value); }
      var a4, t4 := RunSubstep(ViewKind);
      if t4.Some? { return Failed(t4.value); }
      if !(a1 || a2 || a3 || a4) {
        return Stalled;
      }
      return Progressed(AllEmpty(queues));
    }
  }
}
