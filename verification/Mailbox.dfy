/** The Update method of util/blockeddoor.go and of util/watchdog.go (the same code): a channel
    of capacity one in which a new value replaces one that is not taken. One goroutine posts,
    another takes, and their steps interleave. A value is named by its position in the order
    of posting; position 0 is the value that Watch was called with. */
module Mailbox {
  import opened Options

  /** Where the poster is: between calls; found the channel full and is about to drain it; is
      about to push once more. The value at hand is the last one posted. */
  datatype Poster = Ready | Draining | Pushing

  /** `dropped` is set when the second push finds the channel full and gives up. */
  datatype Box = Box(posts: nat, ch: Option<nat>, poster: Poster, dropped: bool)

  datatype BoxAction = Post | Drain | Push

  const EMPTY := Box(1, None, Ready, false)

  ghost predicate BoxEnabled(b: Box, a: BoxAction) {
    match a
    case Post => b.poster.Ready?
    case Drain => b.poster.Draining?
    case Push => b.poster.Pushing? && b.posts > 0
  }

  ghost function BoxAfter(b: Box, a: BoxAction): Box
    requires BoxEnabled(b, a)
  {
    match a
    case Post =>
      if b.ch.None? then b.(posts := b.posts + 1, ch := Some(b.posts))
      else b.(posts := b.posts + 1, poster := Draining)
    case Drain => b.(ch := None, poster := Pushing)
    case Push =>
      if b.ch.None? then b.(ch := Some(b.posts - 1), poster := Ready)
      else b.(poster := Ready, dropped := true)
  }

  ghost function Taken(b: Box): Box {
    b.(ch := None)
  }

  /** `seen` is the last value taken. */
  ghost predicate BoxInv(b: Box, seen: nat) {
    && !b.dropped
    && seen < b.posts
    && (b.ch.Some? ==> seen < b.ch.value < b.posts)
    && match b.poster
       case Ready => seen == b.posts - 1 || b.ch == Some(b.posts - 1)
       case Draining =>
         if b.ch.Some? then b.ch.value == b.posts - 2 else seen == b.posts - 2
       case Pushing => seen < b.posts - 1 && b.ch.None?
  }

  lemma BoxKept(b: Box, seen: nat, a: BoxAction)
    requires BoxInv(b, seen) && BoxEnabled(b, a)
    ensures BoxInv(BoxAfter(b, a), seen)
  {
  }

  /** Taking never takes an older value than before, and loses none. */
  lemma TakeKeeps(b: Box, seen: nat)
    requires BoxInv(b, seen) && b.ch.Some?
    ensures BoxInv(Taken(b), b.ch.value) && seen < b.ch.value
  {
  }
}
