/**
 * The Zelda UCode's protocol state: the mail state machine's current state,
 * the voice synchronisation fields, the 64-word command buffer with its
 * offsets, the rendering counters, and the renderer it owns. `Read32` and
 * `Write32` are proved against `CommandQueue.Read` and `CommandQueue.Write`.
 */
module ZeldaUCodeState {
  import opened FixedPoint
  import CommandQueue
  import ZeldaRenderer

  /** States of the mail state machine (a `u32` enum, numbered in this order). */
  datatype MailState = WAITING | RENDERING | WRITING_CMD | HALTED

  /** The two kinds of acknowledgement sent to the CPU. */
  datatype CommandAck = STANDARD | DONE_RENDERING

  /** Number of per-voice skip bitfields carried by sync mails. */
  const SYNC_VOICE_SKIP_FLAGS_LEN: nat := 256

  class ZeldaUCode {
    var mailCurrentState: MailState
    var mailExpectedCmdMails: u32

    /** Voices up to this id may be rendered until the next sync mail. */
    var syncMaxVoiceId: u32
    const syncVoiceSkipFlags: array<u32>

    /** Command buffer: a circular queue with read and write offsets. */
    const cmdBuffer: array<u32>
    var readOffset: u32
    var writeOffset: u32
    var pendingCommandsCount: u32
    var cmdCanExecute: bool

    /** Rendering flow control. */
    var renderingRequestedFrames: u32
    var renderingVoicesPerFrame: u16
    var renderingCurrFrame: u32
    var renderingCurrVoice: u32

    const renderer: ZeldaRenderer.ZeldaAudioRenderer

    /** The arrays have their declared sizes and both offsets index the command buffer. */
    ghost predicate Valid()
      reads this
    {
      && cmdBuffer.Length == CommandQueue.CMD_BUFFER_WORDS
      && syncVoiceSkipFlags.Length == SYNC_VOICE_SKIP_FLAGS_LEN
      && cmdBuffer != syncVoiceSkipFlags
      && readOffset < CommandQueue.CMD_BUFFER_WORDS
      && writeOffset < CommandQueue.CMD_BUFFER_WORDS
    }

    /** The command buffer and its offsets as a queue value. */
    ghost function CmdQueue(): (q: CommandQueue.Queue)
      requires Valid()
      reads this, cmdBuffer
      ensures CommandQueue.Valid(q)
    {
      CommandQueue.Queue(cmdBuffer[..], readOffset, writeOffset)
    }

    /**
     * The member initialisers: waiting for mail, no expected command words,
     * an empty zeroed command buffer, commands allowed to run, no rendering
     * in progress, and a freshly initialised renderer.
     */
    constructor ()
      ensures Valid()
      ensures mailCurrentState == WAITING && mailExpectedCmdMails == 0
      ensures syncMaxVoiceId == 0 && syncVoiceSkipFlags[..] == seq(SYNC_VOICE_SKIP_FLAGS_LEN, _ => 0)
      ensures cmdBuffer[..] == seq(CommandQueue.CMD_BUFFER_WORDS, _ => 0)
      ensures readOffset == 0 && writeOffset == 0 && CommandQueue.Pending(CmdQueue()) == []
      ensures pendingCommandsCount == 0 && cmdCanExecute
      ensures renderingRequestedFrames == 0 && renderingVoicesPerFrame == 0
      ensures renderingCurrFrame == 0 && renderingCurrVoice == 0
      ensures !RenderingInProgress()
      ensures fresh(syncVoiceSkipFlags) && fresh(cmdBuffer) && fresh(renderer)
      ensures renderer.Valid() && renderer.Initial()
    {
      mailCurrentState := WAITING;
      mailExpectedCmdMails := 0;
      syncMaxVoiceId := 0;
      syncVoiceSkipFlags := new u32[SYNC_VOICE_SKIP_FLAGS_LEN](_ => 0);
      cmdBuffer := new u32[CommandQueue.CMD_BUFFER_WORDS](_ => 0);
      readOffset, writeOffset := 0, 0;
      pendingCommandsCount := 0;
      cmdCanExecute := true;
      renderingRequestedFrames := 0;
      renderingVoicesPerFrame := 0;
      renderingCurrFrame := 0;
      renderingCurrVoice := 0;
      renderer := new ZeldaRenderer.ZeldaAudioRenderer();
    }

    /** Hook point for every state change; the commented-out log is not modelled. */
    method SetMailState(newState: MailState)
      modifies this`mailCurrentState
      ensures mailCurrentState == newState
    {
      mailCurrentState := newState;
    }

    /**
     * Reads a word from the command buffer and advances the read offset. On
     * an empty queue it logs (not modelled) and returns 0, changing nothing.
     */
    method Read32() returns (res: u32)
      requires Valid()
      modifies this`readOffset
      ensures Valid()
      ensures (res, CmdQueue()) == CommandQueue.Read(old(CmdQueue()))
    {
      if readOffset == writeOffset {
        return 0;
      }
      res := cmdBuffer[readOffset];
      readOffset := (readOffset + 1) % CommandQueue.CMD_BUFFER_WORDS;
    }

    /** Writes a word at the write offset and advances it; nothing guards against overflow. */
    method Write32(val: u32)
      requires Valid()
      modifies cmdBuffer, this`writeOffset
      ensures Valid()
      ensures CmdQueue() == CommandQueue.Write(old(CmdQueue()), val)
    {
      cmdBuffer[writeOffset] := val;
      writeOffset := (writeOffset + 1) % CommandQueue.CMD_BUFFER_WORDS;
    }

    /** Rendering is in progress until the current frame reaches the requested frame count. */
    predicate RenderingInProgress()
      reads this
    {
      renderingCurrFrame != renderingRequestedFrames
    }
  }
}
