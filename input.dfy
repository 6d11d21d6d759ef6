/** What the game reads from pygame's input: the keys it tells apart, the
    events it reacts to, and the mouse state it samples while handling them. */
module Input {

  /** The pygame key constants the game compares against. */
  datatype Key = Up | Down | Left | Right | Return | KeyP | Escape | OtherKey(code: int)

  /** The keys of the `move` dictionary. */
  const Arrows: set<Key> := {Up, Down, Left, Right}

  /** A polled event: QUIT, KEYDOWN, KEYUP, or anything else. */
  datatype Event = Quit | KeyDown(key: Key) | KeyUp(key: Key) | OtherEvent

  /** `pygame.mouse.get_pressed()[0]` and `pygame.mouse.get_pos()`. */
  datatype Mouse = Mouse(pressed: bool, x: int, y: int)

  /** One event as the loop handles it, with the tick count and the mouse
      state the handler would read while handling it. */
  datatype Polled = Polled(event: Event, now: int, mouse: Mouse)
}
