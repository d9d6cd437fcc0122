/** The instruction set: one queue of these per plane. */
module Commands {

  /** A plane's name as it appears in the program text (lower-cased). */
  type Id = string

  /** `goto` to a track position (reduced modulo the track size only when
      it runs), `give` an amount of fuel to each listed plane, `wait` a
      number of steps (the counter is decremented in place while the
      command sits at the front of its queue), `view` a colour tag. */
  datatype Command =
    | Goto(dest: int)
    | Give(amount: int, recv: seq<Id>)
    | Wait(time: int)
    | View(color: string)

  /** The command's `type` string, which selects the phase that runs it. */
  datatype Kind = GotoKind | GiveKind | WaitKind | ViewKind

  function KindOf(c: Command): Kind
  {
    match c
    case Goto(_) => GotoKind
    case Give(_, _) => GiveKind
    case Wait(_) => WaitKind
    case View(_) => ViewKind
  }

  /** Every plane a `give` command names is one of `known`. */
  predicate RecipientsIn(c: Command, known: set<Id>)
  {
    c.Give? ==> forall r :: r in c.recv ==> r in known
  }

  /** Every `give` in every queue names only planes that have a queue. */
  ghost predicate RecipientsKnown(queues: map<Id, seq<Command>>)
  {
    forall id, c :: id in queues && c in queues[id] ==> RecipientsIn(c, queues.Keys)
  }

  /** No name occurs twice. */
  ghost predicate Distinct(ids: seq<Id>)
  {
    forall i, j :: 0 <= i < j < |ids| ==> ids[i] != ids[j]
  }
}
