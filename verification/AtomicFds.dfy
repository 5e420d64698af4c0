/** An atomic `Option<OwnedFd>`: one raw descriptor number in which `-1` stands for None. */
module AtomicFds {
  import opened Wrappers

  /** A descriptor number an `OwnedFd` may hold; `-1` is its niche. */
  type Fd = x: int | x != -1 witness 0

  const NONE_BITS := -1

  function Decode(raw: int): (fd: Option<Fd>)
    ensures Encode(fd) == raw
  {
    if raw == NONE_BITS then None else Some(raw)
  }

  function Encode(fd: Option<Fd>): (raw: int) {
    match fd case None => NONE_BITS case Some(n) => n
  }

  /** The descriptors that whoever has `fd` has to close. */
  function Holds(fd: Option<Fd>): multiset<Fd> {
    match fd case None => multiset{} case Some(n) => multiset{n}
  }

  const EBADF := 9

  /** Consuming the object is modelled by leaving its slot empty, so that its drop, which
      closes what is in the slot, closes nothing. No method here closes a descriptor. */
  class AtomicFd {
    var fd: int

    /** The owned descriptor that the raw number stands for. */
    ghost function Owned(): Option<Fd>
      reads this
    {
      Decode(fd)
    }

    constructor (owned: Option<Fd>)
      ensures Owned() == owned
    {
      fd := Encode(owned);
    }

    /** The new slot owns the descriptor that the number stands for. */
    constructor FromRawFd(raw: int)
      ensures Owned() == if raw == NONE_BITS then None else Some(raw)
      ensures Encode(Owned()) == raw
    {
      fd := raw;
    }

    /** Whatever was in the slot now belongs to the caller, who has to close it. */
    method Swap(replacement: Option<Fd>) returns (previous: Option<Fd>)
      modifies this
      ensures previous == old(Owned()) && Owned() == replacement
      ensures Holds(previous) + Holds(Owned()) == old(Holds(Owned())) + Holds(replacement)
    {
      var raw := fd;
      fd := Encode(replacement);
      previous := Decode(raw);
    }

    method IsSome() returns (some: bool)
      ensures some <==> Owned().Some?
    {
      some := fd != NONE_BITS;
    }

    method LoadBorrowed() returns (borrowed: Option<Fd>)
      ensures borrowed == Owned()
    {
      borrowed := Decode(fd);
    }

    /** `into_inner`: the descriptor moves to the caller and the slot is left empty. */
    method IntoInner() returns (taken: Option<Fd>)
      modifies this
      ensures Owned().None? && taken == old(Owned())
      ensures Holds(taken) + Holds(Owned()) == old(Holds(Owned()))
    {
      taken := Decode(fd);
      fd := NONE_BITS;
    }

    /** `into_raw_fd`: the caller of it owns the number, and the slot does not any more. */
    method IntoRawFd() returns (raw: int)
      modifies this
      ensures Owned().None? && Decode(raw) == old(Owned())
      ensures Holds(Decode(raw)) + Holds(Owned()) == old(Holds(Owned()))
    {
      var inner := IntoInner();
      match inner {
        case Some(n) => raw := n;
        case None => raw := NONE_BITS;
      }
    }

    /** `OwnedFd::try_from`: the caller gets the descriptor if there is one, and with the
        error nothing is lost. */
    method TryIntoOwned() returns (r: Result<Fd, int>)
      modifies this
      ensures r.Ok? <==> old(Owned()).Some?
      ensures Owned().None?
      ensures (if r.Ok? then multiset{r.value} else multiset{}) + Holds(Owned()) == old(Holds(Owned()))
      ensures r.Err? ==> r.error == 9
    {
      var inner := IntoInner();
      match inner {
        case Some(n) => r := Ok(n);
        case None => r := Err(EBADF);
      }
    }

    /** `from_raw_fd(self.into_raw_fd())` moves the ownership to a new object. */
    method ThroughRaw() returns (moved: AtomicFd)
      modifies this
      ensures fresh(moved) && moved.Owned() == old(Owned()) && Owned().None?
    {
      var raw := IntoRawFd();
      moved := new AtomicFd.FromRawFd(raw);
    }
  }
}
