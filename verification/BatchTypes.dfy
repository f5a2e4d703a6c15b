/** The seam between a transport and what drives it: one batch of commands out, one of feedback
    back, and the limits both sides know. */
module BatchTypes {
  import opened Framing
  import opened Bits
  import opened Numbers

  const MAX_BATCH_JOINTS := 32

  datatype JointCommand = JointCommand(
    position: Num, velocity: Num, effort: Num, stiffness: Num, damping: Num)
  {
    predicate IsFinite() {
      && position.IsFinite() && velocity.IsFinite() && effort.IsFinite()
      && stiffness.IsFinite() && damping.IsFinite()
    }
  }

  const ZERO_JOINT := JointCommand(Real(0.0), Real(0.0), Real(0.0), Real(0.0), Real(0.0))

  datatype JointFeedback = JointFeedback(
    position: real, velocity: real, effort: real, temperature: byte, faultBits: u16, isFresh: bool)

  const NO_FEEDBACK := JointFeedback(0.0, 0.0, 0.0, 0, 0, false)

  datatype Envelope = Envelope(
    positionMin: Num, positionMax: Num, velocityMax: Num, torquePeak: Num, stiffnessMax: Num,
    dampingMax: Num, torqueSlewMax: Num)

  /** `stamp` in seconds; a batch's joint count is the length of `joints`. */
  datatype CommandBatch = CommandBatch(sequence: nat, stamp: real, joints: seq<JointCommand>)

  datatype FeedbackBatch = FeedbackBatch(
    sequence: nat, joints: seq<JointFeedback>, availability: set<nat>, epoch: nat)

  datatype TransportError =
    | NoError | NotActive | ManifestMismatch | HardwareFault | Timeout | IncompleteBatch
    | SequenceMismatch | FramingError
}
