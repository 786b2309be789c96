/** Ring buffers that keep the most recent values, or the most recent lines of a byte stream. */
module Rings {
  // ---------------------------------------------------------------------------------------------
  // Values
  // ---------------------------------------------------------------------------------------------

  /** The last items of a sequence, as many as fit. */
  function Recent<T>(items: seq<T>, capacity: nat): (recent: seq<T>)
    ensures |recent| == if |items| < capacity then |items| else capacity
  {
    if |items| <= capacity then items else items[|items| - capacity..]
  }

  lemma WrapsOnce(place: nat, length: nat)
    requires place < 2 * length
    ensures place % length == if place < length then place else place - length
  {
  }

  /** Where the item after some others is, in a buffer read from its head. */
  function Place(head: nat, offset: nat, length: nat): (place: nat)
    requires head < length && offset <= length
    ensures place < length
  {
    if head + offset < length then head + offset else head + offset - length
  }

  /** A buffer read from its head, round and round, shows some items. */
  ghost predicate Shows<T>(buf: seq<T>, head: nat, items: seq<T>) {
    && |items| <= |buf| && (head < |buf| || head == 0)
    && forall i | 0 <= i < |items| :: buf[Place(head, i, |buf|)] == items[i]
  }

  lemma AddedWhereThereIsSpace<T>(buf: seq<T>, added: seq<T>, item: T)
    requires |added| < |buf| && Shows(buf, 0, Recent(added, |buf|))
    ensures Shows(buf[|added| := item], 0, Recent(added + [item], |buf|))
  {
    assert Recent(added + [item], |buf|) == added + [item];
  }

  /** The oldest item is overwritten, and what follows it becomes the oldest. */
  lemma AddedOverTheOldest<T>(buf: seq<T>, head: nat, added: seq<T>, item: T)
    requires buf != [] && |buf| <= |added| && Shows(buf, head, Recent(added, |buf|))
    ensures Shows(buf[head := item], Place(head, 1, |buf|), Recent(added + [item], |buf|))
  {
    var (before, after) := (Recent(added, |buf|), Recent(added + [item], |buf|));
    assert after == before[1..] + [item];
    forall i | 0 <= i < |after| ensures buf[head := item][Place(Place(head, 1, |buf|), i, |buf|)] == after[i] {
      if i + 1 < |buf| {
        assert buf[Place(head, i + 1, |buf|)] == before[i + 1];
      }
    }
  }

  class ValueRing<T> {
    const buf: array<T>
    const zero: T
    var head: nat
    var size: nat
    /** Everything that was added since the ring was created or cleared. */
    ghost var added: seq<T>

    ghost predicate Valid()
      reads this, buf
    {
      && size == |Recent(added, buf.Length)| && (size < buf.Length ==> head == 0)
      && (head < buf.Length || head == 0)
      && Shows(buf[..], head, Recent(added, buf.Length))
    }

    /** A negative capacity is one of zero. */
    constructor (capacity: int, zero: T)
      ensures Valid() && fresh(buf) && added == []
      ensures buf.Length == if capacity < 0 then 0 else capacity
    {
      var length: nat := if capacity < 0 then 0 else capacity;
      this.buf := new T[length](_ => zero);
      this.zero, this.head, this.size, this.added := zero, 0, 0, [];
    }

    method Add(item: T)
      requires Valid()
      modifies this, buf
      ensures Valid() && added == old(added) + [item]
    {
      hide Shows, Recent;
      ghost var (was, content) := (added, buf[..]);
      added := added + [item];
      if buf.Length == 0 {
        return;
      }
      if size < buf.Length {
        AddedWhereThereIsSpace(content, was, item);
        WrapsOnce(head + size, buf.Length);
        var place := (head + size) % buf.Length;
        buf[place] := item;
        size := size + 1;
        assert buf[..] == content[|was| := item];
      } else {
        AddedOverTheOldest(content, head, was, item);
        buf[head] := item;
        assert buf[..] == content[head := item];
        WrapsOnce(head + 1, buf.Length);
        head := (head + 1) % buf.Length;
        assert head == Place(old(head), 1, |content|);
      }
    }

    method AddMany(items: seq<T>)
      requires Valid()
      modifies this, buf
      ensures Valid() && added == old(added) + items
    {
      for i := 0 to |items|
        invariant Valid() && added == old(added) + items[..i]
      {
        Add(items[i]);
      }
    }

    /** The last items that were added, oldest first. */
    method Items() returns (out: seq<T>)
      requires Valid()
      ensures out == Recent(added, buf.Length)
    {
      out := [];
      for i := 0 to size
        invariant out == Recent(added, buf.Length)[..i]
      {
        WrapsOnce(head + i, buf.Length);
        out := out + [buf[(head + i) % buf.Length]];
      }
    }

    method Clear()
      requires Valid()
      modifies this, buf
      ensures Valid() && added == []
    {
      for i := 0 to buf.Length
        modifies buf
      {
        buf[i] := zero;
      }
      head, size, added := 0, 0, [];
    }

    method Len() returns (length: nat)
      requires Valid()
      ensures length == |Recent(added, buf.Length)|
    {
      return size;
    }
  }

  // ---------------------------------------------------------------------------------------------
  // Lines of bytes
  // ---------------------------------------------------------------------------------------------

  /** bytes.Count of line breaks */
  function Lines(bytes: string): nat {
    if bytes == "" then 0 else (if bytes[0] == '\n' then 1 else 0) + Lines(bytes[1..])
  }

  /** bytes.IndexByte of a line break, or the length if there is none */
  function LineEnd(bytes: string): (i: nat)
    ensures i <= |bytes|
  {
    if bytes == "" || bytes[0] == '\n' then 0 else LineEnd(bytes[1..]) + 1
  }

  /** What is left without the first complete lines. */
  function DropLines(bytes: string, count: nat): string {
    if count == 0 || bytes == "" then bytes
    else DropLines(bytes[1..], if bytes[0] == '\n' then count - 1 else count)
  }

  /** A stream without its first complete lines, so that no more than some are left. */
  function Kept(bytes: string, maxLines: nat): string {
    if Lines(bytes) <= maxLines then bytes else DropLines(bytes, Lines(bytes) - maxLines)
  }

  lemma {:induction false} LinesAppend(a: string, b: string)
    ensures Lines(a + b) == Lines(a) + Lines(b)
  {
    if a == "" {
      assert a + b == b;
    } else {
      assert (a + b)[1..] == a[1..] + b;
      LinesAppend(a[1..], b);
    }
  }

  lemma {:induction false} LinesAfterDrop(bytes: string, count: nat)
    requires count <= Lines(bytes)
    ensures Lines(DropLines(bytes, count)) == Lines(bytes) - count
  {
    if count > 0 {
      LinesAfterDrop(bytes[1..], if bytes[0] == '\n' then count - 1 else count);
    }
  }

  lemma {:induction false} DropLinesAppend(a: string, b: string, count: nat)
    requires count <= Lines(a)
    ensures DropLines(a + b, count) == DropLines(a, count) + b
  {
    if count > 0 {
      assert (a + b)[1..] == a[1..] + b;
      DropLinesAppend(a[1..], b, if a[0] == '\n' then count - 1 else count);
    }
  }

  lemma {:induction false} DropLinesTwice(bytes: string, first: nat, second: nat)
    ensures DropLines(DropLines(bytes, first), second) == DropLines(bytes, first + second)
  {
    if first > 0 && bytes != "" {
      DropLinesTwice(bytes[1..], if bytes[0] == '\n' then first - 1 else first, second);
    }
  }

  /** Dropping a line is cutting after the first line break. */
  lemma {:induction false} DropOneLine(bytes: string)
    ensures Lines(bytes) > 0 <==> LineEnd(bytes) < |bytes|
    ensures Lines(bytes) > 0 ==> DropLines(bytes, 1) == bytes[LineEnd(bytes) + 1..]
  {
    if bytes != "" {
      DropOneLine(bytes[1..]);
      assert bytes[0] != '\n' && Lines(bytes) > 0 ==>
          bytes[LineEnd(bytes) + 1..] == bytes[1..][LineEnd(bytes[1..]) + 1..];
    }
  }

  /** Forgetting lines early makes no difference: it does not matter how a stream is split. */
  lemma KeptForgetsEarly(a: string, b: string, maxLines: nat)
    ensures Kept(Kept(a, maxLines) + b, maxLines) == Kept(a + b, maxLines)
  {
    LinesAppend(a, b);
    LinesAppend(Kept(a, maxLines), b);
    if Lines(a) > maxLines {
      var dropped := Lines(a) - maxLines;
      LinesAfterDrop(a, dropped);
      DropLinesAppend(a, b, dropped);
      DropLinesTwice(a + b, dropped, Lines(b));
    }
  }

  lemma KeptAfterDrop(bytes: string, rest: string, maxLines: nat)
    requires Lines(bytes) > maxLines && rest == DropLines(bytes, 1)
    ensures Lines(rest) == Lines(bytes) - 1 && Kept(rest, maxLines) == Kept(bytes, maxLines)
  {
    LinesAfterDrop(bytes, 1);
    DropLinesTwice(bytes, 1, Lines(bytes) - maxLines - 1);
  }

  /** Removing one line at a time keeps what is to be kept. */
  lemma OneLineLess(bytes: string, maxLines: nat)
    requires Lines(bytes) > maxLines
    ensures LineEnd(bytes) < |bytes|
    ensures Lines(bytes[LineEnd(bytes) + 1..]) == Lines(bytes) - 1
    ensures Kept(bytes[LineEnd(bytes) + 1..], maxLines) == Kept(bytes, maxLines)
  {
    DropOneLine(bytes);
    KeptAfterDrop(bytes, bytes[LineEnd(bytes) + 1..], maxLines);
  }

  lemma {:induction false} DropLinesMeans(bytes: string, count: nat) returns (start: nat)
    requires count <= Lines(bytes)
    ensures start <= |bytes| && DropLines(bytes, count) == bytes[start..]
    ensures count > 0 ==> start > 0 && bytes[start - 1] == '\n'
  {
    start := 0;
    if count > 0 {
      var rest := DropLinesMeans(bytes[1..], if bytes[0] == '\n' then count - 1 else count);
      start := if bytes[0] == '\n' && count == 1 then 1 else rest + 1;
    }
  }

  /** What is kept is the end of the stream, from the start of a line on, with as many complete lines as fit. */
  lemma KeptMeans(bytes: string, maxLines: nat) returns (start: nat)
    ensures start <= |bytes| && Kept(bytes, maxLines) == bytes[start..]
    ensures Lines(Kept(bytes, maxLines)) == if Lines(bytes) < maxLines then Lines(bytes) else maxLines
    ensures Lines(bytes) <= maxLines ==> start == 0
    ensures Lines(bytes) > maxLines ==> start > 0 && bytes[start - 1] == '\n'
  {
    start := 0;
    if Lines(bytes) > maxLines {
      start := DropLinesMeans(bytes, Lines(bytes) - maxLines);
      LinesAfterDrop(bytes, Lines(bytes) - maxLines);
    }
  }

  class ByteRing {
    var buf: string
    var lines: int
    const maxLines: nat
    /** Everything that was added since the ring was created or cleared. */
    ghost var stream: string

    ghost predicate Valid()
      reads this
    {
      buf == Kept(stream, maxLines) && lines == Lines(buf)
    }

    constructor (capacity: int)
      ensures Valid() && stream == "" && maxLines == if capacity < 0 then 0 else capacity
    {
      maxLines := if capacity < 0 then 0 else capacity;
      buf, lines, stream := "", 0, "";
    }

    /** Removes the first lines while there are too many. */
    method Trim()
      requires lines == Lines(buf)
      modifies this`buf, this`lines
      ensures buf == Kept(old(buf), maxLines) && lines == Lines(buf)
    {
      ghost var was := buf;
      while lines > maxLines
        invariant lines == Lines(buf)
        invariant Kept(buf, maxLines) == Kept(was, maxLines)
        decreases lines
      {
        OneLineLess(buf, maxLines);
        var idx := LineEnd(buf);
        if idx == |buf| {
          return;
        }
        buf := buf[idx + 1..];
        lines := lines - 1;
      }
    }

    method Add(item: char)
      requires Valid()
      modifies this
      ensures Valid() && stream == old(stream) + [item]
    {
      KeptForgetsEarly(stream, [item], maxLines);
      LinesAppend(buf, [item]);
      ghost var start := KeptMeans(stream, maxLines);
      buf := buf + [item];
      stream := stream + [item];
      if item == '\n' {
        lines := lines + 1;
        Trim();
      }
    }

    method AddMany(items: string)
      requires Valid()
      modifies this
      ensures Valid() && stream == old(stream) + items
    {
      KeptForgetsEarly(stream, items, maxLines);
      LinesAppend(buf, items);
      buf := buf + items;
      stream := stream + items;
      lines := lines + Lines(items);
      Trim();
    }

    method Items() returns (out: string)
      requires Valid()
      ensures out == Kept(stream, maxLines)
    {
      return buf;
    }

    method Clear()
      modifies this
      ensures Valid() && stream == ""
    {
      buf, lines, stream := "", 0, "";
    }

    method Len() returns (length: nat)
      requires Valid()
      ensures length == |Kept(stream, maxLines)|
    {
      return |buf|;
    }
  }
}
