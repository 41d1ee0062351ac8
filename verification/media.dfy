/** The part of the HTML media element the player drives: position,
    duration, paused flag, volume, muted flag and source. Each setter keeps
    the element's own rules: a non-finite position throws and changes
    nothing, a known duration clamps the position, and a volume outside
    [0, 1] or a non-finite one throws. */
module Media {
  import opened Numbers

  datatype MediaHandle = MediaHandle(
    currentTime: real,
    duration: Num,
    paused: bool,
    volume: real,
    muted: bool,
    src: string)
  {
    /** The element's invariants: volume in [0, 1], a non-negative
        position, and once the duration is known the position within it. */
    predicate Valid() {
      0.0 <= volume <= 1.0 && 0.0 <= currentTime
      && (duration.Fin? ==> 0.0 <= duration.v && currentTime <= duration.v)
    }

    /** Assigning `currentTime`. */
    function WithTime(t: Num): (m: MediaHandle)
      ensures m.(currentTime := currentTime) == this
      ensures t.NonFinite? ==> m == this
      ensures t.Fin? && duration.Fin? && 0.0 <= duration.v ==> m.currentTime == Clamp(t.v, 0.0, duration.v)
      ensures t.Fin? && 0.0 <= t.v && (duration.Fin? ==> t.v <= duration.v) ==> m.currentTime == t.v
      ensures Valid() ==> m.Valid()
    {
      match t
      case NonFinite => this
      case Fin(x) =>
        if duration.Fin? then this.(currentTime := Clamp(x, 0.0, duration.v))
        else this.(currentTime := Max(0.0, x))
    }

    /** Assigning `volume`: `None` stands for the thrown error, which also
        aborts the rest of the handler. */
    function WithVolume(x: Num): (m: Option<MediaHandle>)
      ensures m.Some? <==> x.Fin? && 0.0 <= x.v <= 1.0
      ensures m.Some? ==> m.value.volume == x.v && m.value.(volume := volume) == this
      ensures m.Some? && Valid() ==> m.value.Valid()
    {
      if x.Fin? && 0.0 <= x.v <= 1.0 then Some(this.(volume := x.v)) else None
    }

    /** `load()` with source `url`: the element pauses, rewinds to 0 and
        forgets the duration until new metadata arrives. */
    function Reloaded(url: string): (m: MediaHandle)
      ensures m.src == url && m.paused && m.currentTime == 0.0 && m.duration.NonFinite?
      ensures m.volume == volume && m.muted == muted
      ensures Valid() ==> m.Valid()
    {
      this.(src := url, paused := true, currentTime := 0.0, duration := NonFinite)
    }

    /** Metadata arrived (`durationchange`): the duration is known and the
        position is brought inside it. */
    function WithDuration(d: real): (m: MediaHandle)
      requires 0.0 <= d
      ensures m.duration == Fin(d)
      ensures m.currentTime == Min(currentTime, d)
      ensures Valid() ==> m.Valid()
      ensures m.(currentTime := currentTime, duration := duration) == this
    {
      this.(duration := Fin(d), currentTime := Min(currentTime, d))
    }
  }

  /** Seeking twice to the same place is the same as seeking once, and a
      seek to a finite place lands in the media's range. */
  lemma SeekIdempotent(m: MediaHandle, t: Num)
    requires m.Valid()
    ensures m.WithTime(t).WithTime(t) == m.WithTime(t)
    ensures t.Fin? && m.duration.Fin? ==> 0.0 <= m.WithTime(t).currentTime <= m.duration.v
  {
  }

  /** The last of two seeks wins. */
  lemma LastSeekWins(m: MediaHandle, t1: real, t2: real)
    requires m.Valid()
    ensures m.WithTime(Fin(t1)).WithTime(Fin(t2)) == m.WithTime(Fin(t2))
  {
  }
}
