/** `FixedBuffer` of log/LogStream.h. */
module LogBuffer {
  import LogProtocol

  class FixedBuffer {
    const size: nat
    const data: array<char>
    /** Which allocation this was. */
    ghost const id: nat
    var cur: nat
    ghost var text: string

    ghost predicate Valid()
      reads this, data
    {
      data.Length == size && cur <= size && text == data[..cur]
    }

    constructor (size: nat, ghost id: nat)
      ensures Valid() && this.id == id && this.size == size && fresh(data) && text == ""
    {
      this.size := size;
      this.id := id;
      data := new char[size];
      cur := 0;
      text := "";
    }

    function Avail(): int
      reads this
    {
      size - cur
    }

    /** The bytes that are in use. */
    function Data(): (s: string)
      requires Valid()
      reads this, data
      ensures s == text && |s| == cur
    {
      data[..cur]
    }

    /** The comparison is strict: a message that would fill the buffer is dropped. */
    method Append(buf: string)
      requires Valid()
      modifies this`cur, this`text, data
      ensures Valid() && text == LogProtocol.Put(size, old(text), buf)
    {
      if Avail() > |buf| {
        for i := 0 to |buf|
          invariant cur + |buf| < size == data.Length && |text| == cur && text == old(text)
          invariant forall k | 0 <= k < cur :: data[k] == text[k]
          invariant forall k | 0 <= k < i :: data[cur + k] == buf[k]
        {
          data[cur + i] := buf[i];
        }
        assert data[..cur + |buf|] == text + buf;
        text := text + buf;
        cur := cur + |buf|;
      }
    }

    method Reset()
      requires Valid()
      modifies this`cur, this`text
      ensures Valid() && text == ""
    {
      cur := 0;
      text := "";
    }
  }

  /** The places that can hold a buffer. A list keeps its number when it is swapped out. */
  datatype Place = AtCurrent | AtNext | AtSpare1 | AtSpare2 | InList(number: int, i: nat)

  /** What is known of a buffer: where it was last moved to, and what is in it. */
  datatype Cell = Cell(buffer: FixedBuffer, place: Place, text: string)

  ghost predicate Known(cells: seq<Cell>, b: FixedBuffer, p: Place, t: string) {
    b.id < |cells| && cells[b.id] == Cell(b, p, t)
  }

  /** The buffers allocated so far, each with an array of its own. */
  class Pool {
    const size: nat
    ghost var cells: seq<Cell>
    ghost var Repr: set<object>

    ghost predicate Valid()
      reads this, Repr
    {
      && this !in Repr
      && (forall i {:trigger cells[i]} | 0 <= i < |cells| :: var b := cells[i].buffer;
        && b.id == i && b in Repr && b.data in Repr && b.Valid() && b.size == size && b.text == cells[i].text)
      && (forall i, j {:trigger cells[i], cells[j]} | 0 <= i < j < |cells| :: cells[i].buffer.data != cells[j].buffer.data)
    }

    ghost predicate Has(b: FixedBuffer)
      reads this
    {
      b.id < |cells| && cells[b.id].buffer == b
    }

    constructor (size: nat)
      ensures Valid() && this.size == size && cells == [] && Repr == {}
    {
      this.size := size;
      cells, Repr := [], {};
    }

    /** `new Buffer()`, about to be put at a place. */
    method New(ghost p: Place) returns (b: FixedBuffer)
      requires Valid()
      modifies this
      ensures Valid() && fresh(Repr - old(Repr))
      ensures b.id == |old(cells)| && cells == old(cells) + [Cell(b, p, "")]
    {
      b := new FixedBuffer(size, |cells|);
      cells := cells + [Cell(b, p, "")];
      Repr := Repr + {b, b.data};
    }

    /** A pointer is moved; the buffer is not touched. */
    ghost method Move(b: FixedBuffer, p: Place)
      requires Valid() && Has(b)
      modifies this`cells
      ensures Valid() && |cells| == |old(cells)| && cells == old(cells)[b.id := Cell(b, p, old(cells)[b.id].text)]
    {
      cells := cells[b.id := Cell(b, p, cells[b.id].text)];
    }

    method Room(b: FixedBuffer) returns (n: int)
      requires Valid() && Has(b)
      ensures b.id < |cells| && n == size - |cells[b.id].text|
    {
      n := b.Avail();
    }

    method Put(b: FixedBuffer, msg: string)
      requires Valid() && Has(b)
      modifies this`cells, b, b.data
      ensures Valid() && |cells| == |old(cells)|
      ensures cells == old(cells)[b.id := Cell(b, old(cells)[b.id].place, LogProtocol.Put(size, old(cells)[b.id].text, msg))]
    {
      b.Append(msg);
      cells := cells[b.id := Cell(b, cells[b.id].place, b.text)];
    }

    method Empty(b: FixedBuffer)
      requires Valid() && Has(b)
      modifies this`cells, b`cur, b`text
      ensures Valid() && |cells| == |old(cells)| && cells == old(cells)[b.id := Cell(b, old(cells)[b.id].place, "")]
    {
      b.Reset();
      cells := cells[b.id := Cell(b, cells[b.id].place, "")];
    }
  }
}
