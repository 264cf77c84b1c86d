/**
 * The demo page's wiring: the file input whose `change` starts an upload,
 * the `loadend` handler that hands the assembled image to the emulator, and
 * the session `startGame` sets up around a successfully constructed emulator
 * (its views, the debug checkbox handler and the keyboard handler).
 */
module Harness {
  import opened RomBuffer
  import opened KeyBinding
  import opened InputRouter
  import opened DebugViews

  /** The page's `file-input` element. */
  class FileInput {
    var disabled: bool

    constructor ()
      ensures !disabled
    {
      disabled := false;
    }

    /**
     * The `change` handler: the input is disabled for good and a fresh
     * upload with an empty buffer starts (the read itself is not modelled).
     */
    method OnChange() returns (upload: Upload)
      modifies this
      ensures disabled
      ensures fresh(upload)
      ensures upload.Valid() && upload.chunks == [] && upload.buffer.Length == 0
    {
      disabled := true;
      upload := new Upload();
    }
  }

  /**
   * What `startGame` leaves behind once `new Emulator(nesData)` has
   * succeeded: the image the emulator was built from, its controller 1 and
   * the running flag of every view.
   */
  class Session {
    const rom: seq<bv8>
    const controller1: Controller
    var running: ViewState

    ghost predicate Valid()
      reads this, controller1
    {
      AllViews(running) && Total(controller1.state)
    }

    /** `startGame(nesData)` past the emulator's construction. */
    constructor (nesData: seq<bv8>)
      ensures Valid()
      ensures rom == nesData
      ensures fresh(controller1) && controller1.state == AllReleased()
      ensures running == BootViews()
    {
      rom := nesData;
      controller1 := new Controller();
      running := AllStopped();
      new;
      StartView(Status);
      StartView(Screen);
    }

    /** `start()` on one view. */
    method StartView(v: View)
      modifies this
      ensures running == old(running)[v := true]
    {
      running := running[v := true];
    }

    /** `stop()` on one view. */
    method StopView(v: View)
      modifies this
      ensures running == old(running)[v := false]
    {
      running := running[v := false];
    }

    /**
     * The `change` handler of the debug checkbox: eight `start()` or eight
     * `stop()` calls, then the opacity of every `.debug` element.
     */
    method OnDebugChange(checked: bool, elements: array<string>)
      requires Valid()
      modifies this, elements
      ensures Valid()
      ensures running == Toggled(old(running), checked)
      ensures elements[..] == Painted(old(elements[..]), checked)
    {
      if checked {
        StartView(CpuRegister);
        StartView(PPURegister);
        StartView(DisASM);
        StartView(BackgroundPalette);
        StartView(SpritePalette);
        StartView(ParttenTable1);
        StartView(ParttenTable2);
        StartView(NameTable);
      } else {
        StopView(CpuRegister);
        StopView(PPURegister);
        StopView(DisASM);
        StopView(BackgroundPalette);
        StopView(SpritePalette);
        StopView(ParttenTable1);
        StopView(ParttenTable2);
        StopView(NameTable);
      }
      for i := 0 to elements.Length
        invariant running == Toggled(old(running), checked)
        invariant forall k :: 0 <= k < i ==> elements[k] == Opacity(checked)
      {
        elements[i] := Opacity(checked);
      }
    }

    /**
     * `keyboardHandle`, registered for `keydown` and `keyup`: an unbound
     * code returns at once, a bound one updates its button on controller 1.
     */
    method KeyboardHandle(e: KeyEvent)
      requires Valid()
      modifies controller1
      ensures Valid()
      ensures controller1.state == ApplyKey(old(controller1.state), e)
    {
      var button := ButtonOf(e.code);
      if button.None? {
        return;
      }
      controller1.UpdateButton(button.value, e.eventType == "keydown");
    }
  }

  /**
   * The `loadend` handler: `startGame(buffer)` inside `try`. The emulator's
   * constructor is outside the model; `accepts` says which images it builds
   * a machine from. On failure nothing is started and no session exists;
   * the file input is not re-enabled.
   */
  method OnLoadEnd(upload: Upload, accepts: seq<bv8> -> bool) returns (session: Session?)
    requires upload.Valid()
    ensures session != null <==> accepts(Concat(upload.chunks))
    ensures session != null ==> fresh(session) && fresh(session.controller1) && session.Valid()
    ensures session != null ==> session.rom == Concat(upload.chunks)
    ensures session != null ==> |session.rom| == TotalLength(upload.chunks)
    ensures session != null ==> session.running == BootViews()
  {
    var nesData := upload.buffer[..];
    ConcatLength(upload.chunks);
    if accepts(nesData) {
      session := new Session(nesData);
    } else {
      session := null;
    }
  }
}
