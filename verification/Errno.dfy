/** `Errno::write_message` and `Errno::format_message`: fetch the message of an error
    number into an uninitialised buffer and hand it on as text, through a second
    uninitialised buffer if it has to be repaired. */
module Errno {
  import opened Wrappers
  import opened Utf8

  datatype MaybeUninit = Uninit | Init(value: byte)

  const ERANGE: int := 34

  /** The Rust result of a call that may also panic. */
  datatype Outcome<+R> = Return(result: Result<R, int>) | Panic

  /** What the foreign `strerror_r` returns, and what it writes to each byte of the buffer:
      None is a byte that it leaves alone. */
  datatype Strerror = Strerror(code: int, writes: seq<Option<byte>>)

  /** What `assume_init_ref` and `assume_init_mut` demand of a slice. */
  predicate AllInit(cells: seq<MaybeUninit>) {
    forall i :: 0 <= i < |cells| ==> cells[i].Init?
  }

  /** `assume_init_ref` on a slice. */
  function Assume(cells: seq<MaybeUninit>): (bytes: seq<byte>)
    requires AllInit(cells)
    ensures |bytes| == |cells| && forall i :: 0 <= i < |cells| ==> cells[i] == Init(bytes[i])
  {
    seq(|cells|, i requires 0 <= i < |cells| => cells[i].value)
  }

  predicate HoldsBytes(cells: seq<MaybeUninit>, bytes: seq<byte>) {
    |cells| == |bytes| && forall i :: 0 <= i < |bytes| ==> cells[i] == Init(bytes[i])
  }

  /** The bytes in front of the first NUL. */
  function CStr(bytes: seq<byte>): (s: seq<byte>)
    requires 0 in bytes
    ensures 0 !in s && |s| < |bytes| && s + [0] <= bytes
  {
    if bytes[0] == 0 then [] else [bytes[0]] + CStr(bytes[1..])
  }

  lemma CStrLength(bytes: seq<byte>, n: nat)
    requires n < |bytes| && bytes[n] == 0 && 0 !in bytes[..n]
    ensures CStr(bytes) == bytes[..n]
  {
    var s := CStr(bytes);
    assert bytes[|s|] == (s + [0])[|s|] == 0;
    assert s == bytes[..|s|];
  }

  /** The buffer after the foreign call: what it wrote, and zeros everywhere else. */
  function After(foreign: Strerror): (bytes: seq<byte>)
    ensures |bytes| == |foreign.writes|
  {
    seq(|foreign.writes|, i requires 0 <= i < |foreign.writes| =>
      match foreign.writes[i] case Some(b) => b case None => 0)
  }

  /** The foreign call reports success, and a nonzero byte is on every zero of the fill. */
  predicate NulOverwritten(foreign: Strerror) {
    && foreign.code == 0
    && forall i :: 0 <= i < |foreign.writes| ==> foreign.writes[i].Some? && foreign.writes[i].value != 0
  }

  /** A successful call leaves a NUL in the buffer unless it overwrites every one. */
  lemma NulIsLeftIff(foreign: Strerror)
    requires foreign.code == 0
    ensures 0 in After(foreign) <==> !NulOverwritten(foreign)
  {
    if !NulOverwritten(foreign) {
      var i :| 0 <= i < |foreign.writes| && !(foreign.writes[i].Some? && foreign.writes[i].value != 0);
      assert After(foreign)[i] == 0;
    }
  }

  /** What `write_message` returns, by the return code of the foreign call. */
  function Written(foreign: Strerror, last: int): Result<seq<byte>, int>
    requires !NulOverwritten(foreign)
  {
    if foreign.code == 0 then
      NulIsLeftIff(foreign);
      Ok(CStr(After(foreign)))
    else if foreign.code > 0 then Err(foreign.code)
    else Err(last)
  }

  /** What that means for each return code, in terms of what the foreign call wrote: a
      negative code stands for `errno`, a positive one for itself, and after success the
      message is what was written before the first byte that is NUL or was left alone. */
  lemma WrittenMeans(foreign: Strerror, last: int)
    requires !NulOverwritten(foreign)
    ensures foreign.code < 0 ==> Written(foreign, last) == Err(last)
    ensures foreign.code > 0 ==> Written(foreign, last) == Err(foreign.code)
    ensures foreign.code == 0 ==>
              && Written(foreign, last).Ok?
              && var m := Written(foreign, last).value;
                 && 0 !in m && |m| < |foreign.writes|
                 && (foreign.writes[|m|] == None || foreign.writes[|m|] == Some(0))
                 && forall k :: 0 <= k < |m| ==> foreign.writes[k] == Some(m[k])
  {
    if foreign.code == 0 {
      NulIsLeftIff(foreign);
      var m, bytes := CStr(After(foreign)), After(foreign);
      assert bytes[|m|] == (m + [0])[|m|] == 0;
      forall k | 0 <= k < |m| ensures foreign.writes[k] == Some(m[k]) {
        assert bytes[k] == (m + [0])[k] == m[k] && m[k] in m;
      }
    }
  }

  /** The foreign call, which is given a `&mut [u8]` and so finds bytes, not holes. */
  method CallStrerror(buffer: array<MaybeUninit>, foreign: Strerror) returns (code: int)
    requires AllInit(buffer[..]) && |foreign.writes| == buffer.Length
    modifies buffer
    ensures code == foreign.code
    ensures forall k :: 0 <= k < buffer.Length ==>
              buffer[k] == match foreign.writes[k] case Some(b) => Init(b) case None => old(buffer[k])
  {
    for i := 0 to buffer.Length
      invariant forall k :: 0 <= k < i ==>
                  buffer[k] == match foreign.writes[k] case Some(b) => Init(b) case None => old(buffer[k])
      invariant forall k :: i <= k < buffer.Length ==> buffer[k] == old(buffer[k])
    {
      match foreign.writes[i] {
        case Some(b) => buffer[i] := Init(b);
        case None =>
      }
    }
    code := foreign.code;
  }

  /** `CStr::from_bytes_until_nul`: the length of the string, if it ends. */
  method FromBytesUntilNul(buffer: array<MaybeUninit>) returns (length: Option<nat>)
    requires AllInit(buffer[..])
    ensures length.None? <==> 0 !in Assume(buffer[..])
    ensures length.Some? ==>
              length.value < buffer.Length && CStr(Assume(buffer[..])) == Assume(buffer[..])[..length.value]
  {
    ghost var bytes := Assume(buffer[..]);
    var n := 0;
    while n < buffer.Length && buffer[n].value != 0
      invariant 0 <= n <= buffer.Length
      invariant 0 !in bytes[..n]
    {
      n := n + 1;
    }
    if n == buffer.Length {
      assert bytes[..n] == bytes;
      return None;
    }
    CStrLength(bytes, n);
    return Some(n);
  }

  /** `CStr::from_ptr`: the same without looking where the buffer ends. */
  method FromPtr(buffer: array<MaybeUninit>) returns (length: nat)
    requires AllInit(buffer[..]) && 0 in Assume(buffer[..])
    ensures length < buffer.Length && CStr(Assume(buffer[..])) == Assume(buffer[..])[..length]
  {
    ghost var bytes := Assume(buffer[..]);
    ghost var end :| 0 <= end < |bytes| && bytes[end] == 0;
    length := 0;
    while buffer[length].value != 0
      invariant length <= end
      invariant 0 !in bytes[..length]
      decreases end - length
    {
      length := length + 1;
    }
    CStrLength(bytes, length);
  }

  /** `last` is what `errno` holds after the call. Without UB checks `strerror_r` must not
      have overwritten every NUL, as `CStr::from_ptr` runs on until it finds one. */
  method WriteMessage(buffer: array<MaybeUninit>, foreign: Strerror, last: int, ubChecks: bool)
    returns (r: Outcome<seq<byte>>)
    requires |foreign.writes| == buffer.Length
    requires ubChecks || !NulOverwritten(foreign)
    modifies buffer
    ensures HoldsBytes(buffer[..], After(foreign))
    ensures r == if NulOverwritten(foreign) then Panic else Return(Written(foreign, last))
  {
    hide CStr;
    for i := 0 to buffer.Length
      invariant forall k :: 0 <= k < i ==> buffer[k] == Init(0)
    {
      buffer[i] := Init(0);
    }
    var code := CallStrerror(buffer, foreign);
    assert Assume(buffer[..]) == After(foreign);
    if code == 0 {
      NulIsLeftIff(foreign);
      var length: nat;
      if ubChecks {
        var found := FromBytesUntilNul(buffer);
        if found.None? { return Panic; }
        length := found.value;
      } else {
        length := FromPtr(buffer);
      }
      r := Return(Ok(Assume(buffer[..])[..length]));
    } else if code > 0 {
      r := Return(Err(code));
    } else {
      r := Return(Err(last));
    }
  }

  // ---- Chunks --------------------------------------------------------------------

  /** Take one character off the front of `s`, or find out how long the maximal subpart
      is that stands in its place. A byte that is not there reads as zero. */
  method ScanChar(s: seq<byte>) returns (valid: bool, n: nat)
    requires s != []
    ensures valid <==> CharLen(s) > 0
    ensures n == if valid then CharLen(s) else SubpartLen(s)
  {
    var first := s[0];
    var second := if |s| > 1 then s[1] else 0;
    var third := if |s| > 2 then s[2] else 0;
    var fourth := if |s| > 3 then s[3] else 0;
    if first < 0x80 {
      return true, 1;
    }
    if 0xC2 <= first <= 0xDF {
      if second / 64 != 2 { return false, 1; }
      assert IsChar(s[..2]);
      CharLenIsUnique(s, 2);
      return true, 2;
    }
    if 0xE0 <= first <= 0xEF {
      if (first == 0xE0 && 0xA0 <= second <= 0xBF) || (0xE1 <= first <= 0xEC && 0x80 <= second <= 0xBF)
         || (first == 0xED && 0x80 <= second <= 0x9F) || (0xEE <= first && 0x80 <= second <= 0xBF) {
        if third / 64 != 2 { return false, 2; }
        assert IsChar(s[..3]);
        CharLenIsUnique(s, 3);
        return true, 3;
      }
      return false, 1;
    }
    if 0xF0 <= first <= 0xF4 {
      if (first == 0xF0 && 0x90 <= second <= 0xBF) || (0xF1 <= first <= 0xF3 && 0x80 <= second <= 0xBF)
         || (first == 0xF4 && 0x80 <= second <= 0x8F) {
        if third / 64 != 2 { return false, 2; }
        if fourth / 64 != 2 { return false, 3; }
        assert IsChar(s[..4]);
        CharLenIsUnique(s, 4);
        return true, 4;
      }
      return false, 1;
    }
    return false, 1;
  }

  /** The iterator `Utf8Chunks`. */
  class Utf8Chunks {
    var source: seq<byte>

    constructor (bytes: seq<byte>)
      ensures source == bytes
    {
      source := bytes;
    }

    method Next() returns (next: Option<Chunk>)
      modifies this
      ensures next.None? <==> old(source) == []
      ensures next.None? ==> source == []
      ensures next.Some? ==> |source| < |old(source)| && IsFirstChunk(old(source), next.value, source)
    {
      if source == [] { return None; }
      var validUpTo, i := Inspect(source);
      FirstChunkFound(source, validUpTo, i);
      next := Some(Chunk(source[..validUpTo], source[validUpTo..i]));
      source := source[i..];
    }
  }

  /** The offsets (validUpTo, i) cut the first chunk off `s`. */
  predicate Cuts(s: seq<byte>, validUpTo: nat, i: nat) {
    && validUpTo <= i <= |s|
    && Valid(s[..validUpTo])
    && (if i == validUpTo then i == |s|
        else CharLen(s[validUpTo..]) == 0 && i - validUpTo == SubpartLen(s[validUpTo..]))
  }

  /** Step over characters until one is missing or the end is reached. */
  method Inspect(s: seq<byte>) returns (validUpTo: nat, i: nat)
    ensures Cuts(s, validUpTo, i)
  {
    hide Valid;
    EmptyIsValid();
    i, validUpTo := 0, 0;
    assert s[..0] == [];
    while i < |s|
      invariant validUpTo == i <= |s|
      invariant Valid(s[..validUpTo])
      decreases |s| - i
    {
      var valid, n := ScanChar(s[i..]);
      i := i + n;
      if !valid { return; }
      ExtendValid(s, validUpTo, n);
      validUpTo := i;
    }
  }

  lemma FirstChunkFound(s: seq<byte>, validUpTo: nat, i: nat)
    requires Cuts(s, validUpTo, i) && s != []
    ensures i > 0 && IsFirstChunk(s, Chunk(s[..validUpTo], s[validUpTo..i]), s[i..])
  {
    hide Valid, CharLen, SubpartLen;
    assert s == s[..validUpTo] + s[validUpTo..i] + s[i..];
    assert s[validUpTo..i] + s[i..] == s[validUpTo..];
  }

  lemma ExtendValid(s: seq<byte>, i: nat, n: nat)
    requires i < |s| && Valid(s[..i]) && n == CharLen(s[i..]) && n > 0
    ensures Valid(s[..i + n])
  {
    var c := s[i..][..n];
    assert s[..i + n] == s[..i] + c && c + [] == c;
    PrependChar(c, []);
    ValidAppend(s[..i], c);
  }

  // ---- Formatting ------------------------------------------------------------------

  function Cells(bytes: seq<byte>): (cells: seq<MaybeUninit>)
    ensures HoldsBytes(cells, bytes)
  {
    seq(|bytes|, i requires 0 <= i < |bytes| => Init(bytes[i]))
  }

  /** `after` is `before` with `bytes` written at `index`. */
  predicate Spliced(before: seq<MaybeUninit>, after: seq<MaybeUninit>, index: nat, bytes: seq<byte>) {
    && index + |bytes| <= |before|
    && after == before[..index] + Cells(bytes) + before[index + |bytes|..]
  }

  lemma SpliceTwice(s: seq<MaybeUninit>, t: seq<MaybeUninit>, u: seq<MaybeUninit>, i: nat, a: seq<byte>, b: seq<byte>)
    requires Spliced(s, t, i, a) && Spliced(t, u, i + |a|, b)
    ensures Spliced(s, u, i, a + b)
  {
    assert t[..i + |a|] == s[..i] + Cells(a);
    assert t[i + |a| + |b|..] == s[i + |a| + |b|..];
    assert Cells(a + b) == Cells(a) + Cells(b);
  }

  /** `scratch.get_mut(index..index + len)?.write_copy_of_slice(bytes)`. */
  method Put(scratch: array<MaybeUninit>, index: nat, bytes: seq<byte>) returns (ok: bool)
    requires index <= scratch.Length
    modifies scratch
    ensures ok <==> index + |bytes| <= scratch.Length
    ensures ok ==> Spliced(old(scratch[..]), scratch[..], index, bytes)
    ensures !ok ==> scratch[..] == old(scratch[..])
  {
    if index + |bytes| > scratch.Length { return false; }
    forall k | 0 <= k < |bytes| {
      scratch[index + k] := Init(bytes[k]);
    }
    return true;
  }

  /** One round of the loop: the text of the chunk, then U+FFFD if it ends in garbage. */
  method PutChunk(scratch: array<MaybeUninit>, index: nat, chunk: Chunk) returns (ok: bool, end: nat)
    requires index <= scratch.Length
    modifies scratch
    ensures end == index + |ChunkText(chunk)|
    ensures ok <==> end <= scratch.Length
    ensures ok ==> Spliced(old(scratch[..]), scratch[..], index, ChunkText(chunk))
  {
    hide Spliced;
    end := index + |ChunkText(chunk)|;
    ok := Put(scratch, index, chunk.valid);
    if !ok || chunk.invalid == [] {
      assert chunk.valid + [] == chunk.valid;
      return;
    }
    ghost var half := scratch[..];
    ok := Put(scratch, index + |chunk.valid|, REPLACEMENT);
    if ok {
      SpliceTwice(old(scratch[..]), half, scratch[..], index, chunk.valid, REPLACEMENT);
    }
  }

  /** The slow path: copy text and replacement characters into the scratch buffer. On
      success exactly the lossy decoding has been written and the rest is untouched. */
  method CopyLossy<R>(first: Chunk, chunks: Utf8Chunks, scratch: array<MaybeUninit>,
                      format: seq<byte> --> R, ghost message: seq<byte>)
    returns (r: Result<R, int>)
    requires IsFirstChunk(message, first, chunks.source)
    requires forall s :: Valid(s) ==> format.requires(s)
    modifies chunks, scratch
    ensures Valid(Lossy(message))
    ensures r == if |Lossy(message)| <= scratch.Length then Ok(format(Lossy(message))) else Err(ERANGE)
    ensures |Lossy(message)| <= scratch.Length ==> Spliced(old(scratch[..]), scratch[..], 0, Lossy(message))
  {
    hide Valid, IsFirstChunk, Lossy, ChunkText, Spliced;
    LossyIsValid(message);
    LossyOfChunk(message, first, chunks.source);
    EmptyLossy();
    SpliceNothing(scratch[..]);
    var index := 0;
    var next := Some(first);
    ghost var done: seq<byte> := [];
    while next.Some?
      invariant next.None? ==> chunks.source == []
      invariant index == |done| <= scratch.Length
      invariant Spliced(old(scratch[..]), scratch[..], 0, done)
      invariant Lossy(message) == done + Pending(next) + Lossy(chunks.source)
      decreases |chunks.source|, next.Some?
    {
      var chunk := next.value;
      ghost var before := scratch[..];
      var ok, end := PutChunk(scratch, index, chunk);
      if !ok {
        return Err(ERANGE);
      }
      SpliceTwice(old(scratch[..]), before, scratch[..], 0, done, ChunkText(chunk));
      index, done := end, done + ChunkText(chunk);
      ghost var rest := chunks.source;
      next := chunks.Next();
      if next.Some? { LossyOfChunk(rest, next.value, chunks.source); }
      Regroup(done, next, rest, chunks.source);
    }
    assert done == Lossy(message);
    ReadBack(old(scratch[..]), scratch[..], done);
    var bytes := Assume(scratch[..index]);
    assert bytes == done;
    r := Ok(format(bytes));
  }

  /** The text of a chunk that has been fetched and not yet copied. */
  function Pending(next: Option<Chunk>): seq<byte> {
    if next.Some? then ChunkText(next.value) else []
  }

  lemma Regroup(done: seq<byte>, next: Option<Chunk>, before: seq<byte>, after: seq<byte>)
    requires next.None? ==> before == after
    requires next.Some? ==> Lossy(before) == ChunkText(next.value) + Lossy(after)
    ensures done + Lossy(before) == done + Pending(next) + Lossy(after)
  {
    Associative(done, Pending(next), Lossy(after));
    assert done + [] == done;
  }

  lemma SpliceNothing(s: seq<MaybeUninit>)
    ensures Spliced(s, s, 0, [])
  {
  }

  /** What has been written is initialised and can be read back. */
  lemma ReadBack(before: seq<MaybeUninit>, after: seq<MaybeUninit>, done: seq<byte>)
    requires Spliced(before, after, 0, done)
    ensures |done| <= |after| && HoldsBytes(after[..|done|], done)
  {
    assert after[..|done|] == Cells(done);
  }

  lemma EmptyLossy()
    ensures Lossy([]) == []
  {
  }

  /** What `format_message` returns for a message and a scratch buffer of a given size. */
  function Formatted<R>(message: seq<byte>, room: nat, format: seq<byte> --> R): Result<R, int>
    requires forall s :: Valid(s) ==> format.requires(s)
  {
    LossyIsValid(message);
    if Valid(message) then Ok(format(message))
    else if |Lossy(message)| <= room then Ok(format(Lossy(message)))
    else Err(ERANGE)
  }

  predicate NeedsRepair(written: Result<seq<byte>, int>) {
    written.Ok? && !Valid(written.value)
  }

  /** `format` may be called with well-formed text only, as its argument is a `&str`. */
  method FormatMessage<R>(buffer: array<MaybeUninit>, scratch: array<MaybeUninit>,
                          foreign: Strerror, last: int, ubChecks: bool, format: seq<byte> --> R)
    returns (r: Outcome<R>)
    requires buffer != scratch && |foreign.writes| == buffer.Length
    requires ubChecks || !NulOverwritten(foreign)
    requires forall s :: Valid(s) ==> format.requires(s)
    modifies buffer, scratch
    ensures HoldsBytes(buffer[..], After(foreign))
    ensures r == if NulOverwritten(foreign) then Panic
                 else match Written(foreign, last)
                      case Err(e) => Return(Err(e))
                      case Ok(message) => Return(Formatted(message, scratch.Length, format))
    ensures !NulOverwritten(foreign) && NeedsRepair(Written(foreign, last)) ==>
              var text := Lossy(Written(foreign, last).value);
              |text| <= scratch.Length ==> Spliced(old(scratch[..]), scratch[..], 0, text)
    ensures NulOverwritten(foreign) || !NeedsRepair(Written(foreign, last)) ==>
              scratch[..] == old(scratch[..])
  {
    hide Valid, Lossy, CStr, Spliced, NulOverwritten;
    var written := WriteMessage(buffer, foreign, last, ubChecks);
    if written.Panic? { return Panic; }
    if written.result.Err? { return Return(Err(written.result.error)); }
    var messageLen := |written.result.value|;
    // The buffer is read again from the start, as initialised bytes.
    var bytes := Assume(buffer[..]);
    assert bytes == After(foreign);
    var message := bytes[..messageLen];
    assert message == written.result.value;
    var chunks := new Utf8Chunks(message);
    var first := chunks.Next();
    match first {
      case None =>
        EmptyIsValid();
        return Return(Ok(format([])));
      case Some(chunk) =>
        LossyOfChunk(message, chunk, chunks.source);
        if chunk.invalid == [] {
          assert chunk.valid == message;
          return Return(Ok(format(chunk.valid)));
        }
        var copied := CopyLossy(chunk, chunks, scratch, format, message);
        return Return(copied);
    }
  }

  lemma EmptyIsValid()
    ensures Valid([])
  {
  }

  /** Both paths at once: the text is the lossy decoding, whichever path produced it, and
      ERANGE means that the message was malformed and its decoding did not fit. Three
      times the message length always suffices, and text that has been through the slow
      path needs no room at all. */
  lemma FormattedIsLossy<R>(message: seq<byte>, room: nat, format: seq<byte> --> R)
    requires forall s :: Valid(s) ==> format.requires(s)
    ensures WellFormed(Lossy(message))
    ensures format.requires(Lossy(message))
    ensures Formatted(message, room, format) ==
            if WellFormed(message) || |Lossy(message)| <= room then Ok(format(Lossy(message))) else Err(34)
    ensures room >= 3 * |message| ==> Formatted(message, room, format).Ok?
    ensures Formatted(Lossy(message), 0, format) == Ok(format(Lossy(message)))
  {
    hide Valid, Lossy, WellFormed;
    LossyFixpoints(message);
    LossyIsValid(message);
    ValidIsWellFormed(message);
    LossyLength(message);
  }
}
