/** From a hook event on the server to the device on the client. */
module HookToDevice {
  import opened Wrappers
  import opened Input
  import opened Protocol
  import opened Injector
  import opened Capture
  import opened HeldKeys

  /** A button goes down or comes up, and nothing else changes. */
  ghost predicate Pushed(d: Device, d': Device, b: Button, down: bool) {
    && d' == d.(keys := d'.keys)
    && forall code :: code in d'.keys <==> if IsButton(b, code) then down else code in d.keys
  }

  /** Hooked with capture on, forwarded as it is and handled: a key sets the code of what its virtual key means, a
      button its own, and the wheel turns the axis that was scrolled. */
  lemma HookReachesDevice(keymap: u16 -> KeyCode, mods: ModifierState, r: RawEvent, c: ClientState)
    ensures var ev := Gate(keymap, mods, r, true);
            var d := DeviceOf(c);
            && ev.Some?
            && var d' := DeviceOf(Handle(c, FromInput(ev.value)));
               match r
               case KeyDown(vk) =>
                 var k: int := keymap(vk % 0x1_0000); d' == if k == 0 then d else d.(keys := d.keys + {k + 8})
               case KeyUp(vk) =>
                 var k: int := keymap(vk % 0x1_0000); d' == if k == 0 then d else d.(keys := d.keys - {k + 8})
               case RawButton(b, down) => Pushed(d, d', b, down)
               case RawScroll(sideways, n) =>
                 if sideways then d' == d.(horizontal := Turned(d.horizontal.notches + n, d.horizontal.fine + 120 * n))
                 else d' == d.(vertical := Turned(d.vertical.notches + n, d.vertical.fine + 120 * n))
               case RawMove(x, y) => ev == Some(Mouse(Move(x, y)))
  {
    var ev := Gate(keymap, mods, r, true).value;
    ForwardedIsInjected(c, ev);
    match r
    case RawButton(b, down) => PressEffect(c, b, KeyEvent(0, Pressed, {}, None), if down then Pressed else Released);
    case RawScroll(_, _) => ScrollEffect(c, ev.mouse.horizontal, ev.mouse.vertical);
    case RawMove(_, _) =>
    case _ => PressEffect(c, LeftButton, ev.key, ev.key.state);
  }
}
