/** The microphone capture of src/audio_input.rs, as far as its two handles go. */
module AudioInput {
  import opened Options

  /** The receiver and its buffer are held here, or both by a running transfer. */
  class AudioInput {
    var rx: Option<nat>
    var rxBuf: Option<nat>
    var transfer: Option<(nat, nat)>

    predicate Valid()
      reads this
    {
      if transfer.Some? then rx.None? && rxBuf.None? else rx.Some? && rxBuf.Some?
    }

    predicate IsRunning()
      reads this
    {
      transfer.Some?
    }

    /** The two handles, wherever they are. */
    function Handles(): (nat, nat)
      requires Valid()
      reads this
    {
      if transfer.Some? then transfer.value else (rx.value, rxBuf.value)
    }

    constructor (receiver: nat, buffer: nat)
      ensures Valid() && !IsRunning() && Handles() == (receiver, buffer)
    {
      rx, rxBuf, transfer := Some(receiver), Some(buffer), None;
    }

    /** Starting twice is harmless; a refused start gives both handles back. */
    method Start(accepted: bool) returns (ok: bool)
      requires Valid()
      modifies this
      ensures Valid() && ok == IsRunning() == (old(IsRunning()) || accepted)
      ensures Handles() == old(Handles())
    {
      if transfer.Some? {
        return true;
      }
      if rx.None? || rxBuf.None? {
        return false;
      }
      if accepted {
        transfer := Some((rx.value, rxBuf.value));
        rx, rxBuf := None, None;
      }
      return accepted;
    }

    method Stop()
      requires Valid()
      modifies this
      ensures Valid() && !IsRunning() && Handles() == old(Handles())
    {
      if transfer.Some? {
        rx, rxBuf, transfer := Some(transfer.value.0), Some(transfer.value.1), None;
      }
    }
  }
}
