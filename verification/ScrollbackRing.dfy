/** electron/terminal/byte-ring-buffer.ts: the bounded scrollback that terminal snapshots are taken from. */
module ScrollbackRing {
  import opened Options
  import TS = TerminalSequence

  type Byte = bv8

  /** How many bytes of an output a ring of this capacity no longer has. */
  function Dropped(total: nat, capacity: nat): nat {
    if total <= capacity then 0 else total - capacity
  }

  /** A snapshot before its bytes are decoded. */
  datatype RingSnapshot = RingSnapshot(data: seq<Byte>, startCursor: nat, cursor: nat, truncated: bool)

  class ByteRingBuffer {
    const capacity: nat
    var buffer: seq<Byte>
    var totalBytes: nat
    /** Everything appended since construction or the last clear. */
    ghost var written: seq<Byte>

    ghost predicate Valid()
      reads this
    {
      && capacity >= 1 && totalBytes == |written|
      && buffer == written[Dropped(|written|, capacity)..]
    }

    constructor (size: nat)
      ensures Valid() && written == [] && capacity == if size < 1 then 1 else size
    {
      capacity := if size < 1 then 1 else size;
      buffer, totalBytes, written := [], 0, [];
    }

    /** The newest bytes are kept, as many as fit. */
    method Append(chunk: seq<Byte>)
      requires Valid()
      modifies this
      ensures Valid() && written == old(written) + chunk
    {
      totalBytes := totalBytes + |chunk|;
      written := written + chunk;
      if |chunk| >= capacity {
        buffer := chunk[|chunk| - capacity..];
        return;
      }
      var combined := buffer + chunk;
      assert combined == written[Dropped(|written| - |chunk|, capacity)..];
      buffer := if |combined| > capacity then combined[|combined| - capacity..] else combined;
    }

    /** The retained bytes from a cursor on; without a cursor all of them. */
    method Snapshot(cursor: Option<int>) returns (s: RingSnapshot)
      requires Valid()
      ensures s.cursor == |written| && s.startCursor == Dropped(|written|, capacity)
      ensures cursor.None? ==> s.data == written[s.startCursor..] && !s.truncated
      ensures cursor.Some? ==> s.data == written[Clamp(cursor.value, s.startCursor, |written|)..]
      ensures cursor.Some? ==> (s.truncated <==> cursor.value < s.startCursor && 0 < s.startCursor)
    {
      var startCursor := totalBytes - |buffer|;
      var requested := if cursor.None? then startCursor else if cursor.value < 0 then 0 else cursor.value;
      var effective := if requested < startCursor then startCursor else requested;
      var offset := if effective - startCursor < |buffer| then effective - startCursor else |buffer|;
      s := RingSnapshot(buffer[offset..], startCursor, totalBytes, requested < startCursor);
    }

    method Clear()
      requires Valid()
      modifies this
      ensures Valid() && written == []
    {
      buffer, totalBytes, written := [], 0, [];
    }
  }

  function Clamp(x: int, low: nat, high: nat): (r: nat)
    requires low <= high
    ensures low <= r <= high
  {
    if x < low then low else if x > high then high else x
  }

  /** A text in bytes, given the bytes of each character. */
  function Encoded(code: char -> seq<Byte>, text: string): seq<Byte> {
    if text == "" then [] else code(text[0]) + Encoded(code, text[1..])
  }

  /** The rest of a character that was cut in two, whose other part is gone. */
  predicate RestOf(code: char -> seq<Byte>, c: char, rest: seq<Byte>) {
    0 < |rest| < |code(c)| && rest == code(c)[|code(c)| - |rest|..]
  }

  /** Wherever the bytes of a text are cut, what is left are the bytes of its last characters, with the rest of
      one more in front if the cut went through it. */
  lemma {:induction false} CutLeavesCharacters(code: char -> seq<Byte>, text: string, dropped: nat)
    returns (k: nat, rest: seq<Byte>)
    requires dropped <= |Encoded(code, text)|
    ensures k <= |text| && Encoded(code, text)[dropped..] == rest + Encoded(code, text[k..])
    ensures rest == [] || (k > 0 && RestOf(code, text[k - 1], rest))
  {
    if dropped == 0 || text == "" {
      k, rest := 0, [];
      assert text[0..] == text;
    } else if dropped < |code(text[0])| {
      k, rest := 1, code(text[0])[dropped..];
    } else {
      var j, later := CutLeavesCharacters(code, text[1..], dropped - |code(text[0])|);
      k, rest := j + 1, later;
      assert Encoded(code, text)[dropped..] == Encoded(code, text[1..])[dropped - |code(text[0])|..];
      assert text[1..][j..] == text[k..];
    }
  }

  /** What the ring retains of a terminal's first events are the bytes of a snapshot as the panel may receive it,
      with at most the rest of one cut character in front. */
  lemma RingServesATail(code: char -> seq<Byte>, log: TS.Log, id: TS.TerminalId, n: nat, capacity: nat)
    returns (k: nat, rest: seq<Byte>)
    requires n <= |log(id)|
    ensures var bytes := Encoded(code, TS.Flat(log(id)[..n]));
            && TS.Possible(TS.Snapshot(id, n, k), log)
            && bytes[Dropped(|bytes|, capacity)..] == rest + Encoded(code, TS.Flat(TS.Tail(log(id)[..n], k)))
    ensures rest == [] || (0 < k <= |TS.Flat(log(id)[..n])| && RestOf(code, TS.Flat(log(id)[..n])[k - 1], rest))
  {
    var text := TS.Flat(log(id)[..n]);
    k, rest := CutLeavesCharacters(code, text, Dropped(|Encoded(code, text)|, capacity));
    TS.TailIsSuffix(log(id)[..n], k);
  }
}
