/** The requests that travel through the command mailbox, and which of them may not overlap. */
module Requests {

  /** The operation a request asks for (its `reserved` word), grouped as the observer groups it. */
  datatype Op =
    | Chooser | Io | QlinkMode | Qlink
    | Jog(unit: nat)
    | Focus(which: nat)      // counted data-wheel steps, note selection and the wheel's push
    | Effect(which: nat)
    | Global(which: nat)
    | Master | Selection | Arm | MidiVolume
    | Field(which: nat)

  datatype Request = Request(
    number: nat,                                // its sequence number
    op: Op,
    projectOwner: nat, trackOwner: nat, programOwner: nat, globalOwner: nat,
    padOwner: nat, padIndex: nat,
    effectSlot: nat, effectIndex: nat,
    qlinkRoot: nat, qlinkWrapper: nat, qlinkIndex: nat,
    ioField: nat,
    controller: nat, argKind: nat, bits: nat)   // what the native call will carry

  const NOTHING := Request(0, Master, 0, 0, 0, 0, 0, 0, 0, 0, 0, 0, 0, 0, 0, 0, 0)

  /** Serviced by service_one itself rather than by one of the services it hands over to. */
  predicate Ordinary(r: Request) {
    r.op.Effect? || r.op.Selection? || r.op.Arm? || r.op.MidiVolume? || r.op.Field?
  }

  /** Selection and arm invoke their owner operation on the spot; the rest cross the native queue. */
  predicate Synchronous(r: Request) {
    r.op.Selection? || r.op.Arm?
  }

  predicate QlinkFamily(r: Request) {
    r.op.Qlink? || r.op.QlinkMode?
  }

  /** command_conflict, test by test. */
  predicate Conflict(a: Request, b: Request) {
    if a.op.Chooser? || b.op.Chooser? then
      (a.op.Chooser? && b.op.Chooser?) || ((a.op.Effect? || b.op.Effect?) && a.programOwner == b.programOwner)
    else if a.op.Io? && b.op.Io? then a.trackOwner == b.trackOwner && a.ioField == b.ioField
    else if a.op.QlinkMode? || b.op.QlinkMode? then QlinkFamily(a) && QlinkFamily(b) && a.qlinkRoot == b.qlinkRoot
    else if a.op.Qlink? && b.op.Qlink? then a.qlinkWrapper == b.qlinkWrapper && a.qlinkIndex == b.qlinkIndex
    else if a.op.Jog? && b.op.Jog? then false
    else if a.op.Focus? || b.op.Focus? then a.op.Focus? && b.op.Focus?
    else if a.op != b.op then false
    else if a.op.Effect? then
      a.programOwner == b.programOwner && a.effectSlot == b.effectSlot && a.effectIndex == b.effectIndex
    else if a.padOwner != 0 || b.padOwner != 0 then
      a.padOwner != 0 && b.padOwner != 0 && a.programOwner == b.programOwner && a.padIndex == b.padIndex
    else if a.op.Global? then true
    else if a.op.Master? then a.globalOwner == b.globalOwner
    else if a.op.Selection? then a.projectOwner == b.projectOwner
    else if a.op.Arm? || a.op.MidiVolume? then a.trackOwner == b.trackOwner
    else a.programOwner == b.programOwner
  }

  /** The scan compares (older, newer); the order does not matter. */
  lemma ConflictIsSymmetric(a: Request, b: Request)
    ensures Conflict(a, b) == Conflict(b, a)
  {
  }
}
