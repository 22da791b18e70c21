/** The four transfers of an epoll socket, each run undisturbed, on its two byte
    buffers and its state word.  What `send` and `recv` answer is a parameter; they
    never take or give more than they were offered. */
module EpollSocket {
  import opened ByteRing
  import SW = SocketWord

  /** recv: Bytes([]) is the end of the stream, like Closed. */
  datatype Received = Bytes(data: seq<Byte>) | Closed | RecvWouldBlock | RecvFailed

  datatype Sending = Sent(n: nat) | SendWouldBlock | SendFailed

  /** The bytes recv stores when there is room for `room`. */
  function Took(o: Received, room: nat): (r: seq<Byte>)
    ensures |r| <= room
  {
    if o.Bytes? then o.data[..Min(|o.data|, room)] else []
  }

  predicate Ended(o: Received) {
    o == Bytes([]) || o.Closed? || o.RecvFailed?
  }

  /** How much of `offered` bytes send takes. */
  function Passed(o: Sending, offered: nat): (n: nat)
    ensures n <= offered
  {
    if o.Sent? then Min(o.n, offered) else 0
  }

  /** Is there a second transfer?  Only when the first filled the whole stretch up to
      the end of the buffer and there is more to do at its beginning. */
  predicate GoesOn(done: nat, stretch: nat, all: nat) {
    done == stretch < all
  }

  /** What the one or two recv calls store. */
  function Arrived(first: Received, second: Received, stretch: nat, free: nat): (r: seq<Byte>)
    requires stretch <= free
    ensures |r| <= free
  {
    var got := Took(first, stretch);
    if GoesOn(|got|, stretch, free) then got + Took(second, free - stretch) else got
  }

  predicate RecvBreaks(first: Received, second: Received, stretch: nat, free: nat) {
    GoesOn(|Took(first, stretch)|, stretch, free) && Ended(second)
  }

  /** How many bytes the one or two send calls take. */
  function Departed(first: Sending, second: Sending, stretch: nat, all: nat): (n: nat)
    requires stretch <= all
    ensures n <= all
  {
    var n := Passed(first, stretch);
    if GoesOn(n, stretch, all) then n + Passed(second, all - stretch) else n
  }

  predicate SendBreaks(first: Sending, second: Sending, stretch: nat, all: nat) {
    GoesOn(Passed(first, stretch), stretch, all) && second.SendFailed?
  }

  /** The recv calls by the lengths of what they give: the first is offered `stretch`
      bytes of room; the second the rest, exactly when the first filled all of its offer
      and there is a rest; and the first that gives less than its offer ends it. */
  lemma ArrivedExactly(first: Received, second: Received, stretch: nat, free: nat)
    requires 0 < stretch <= free && first.Bytes?
    ensures |first.data| < stretch ==>
              Arrived(first, second, stretch, free) == first.data && !RecvBreaks(first, second, stretch, free)
    ensures |first.data| >= stretch && stretch == free ==>
              Arrived(first, second, stretch, free) == first.data[..free] && !RecvBreaks(first, second, stretch, free)
    ensures |first.data| >= stretch && stretch < free && second.Bytes? && 0 < |second.data| < free - stretch ==>
              Arrived(first, second, stretch, free) == first.data[..stretch] + second.data
              && !RecvBreaks(first, second, stretch, free)
    ensures |first.data| >= stretch && stretch < free && second.Bytes? && |second.data| >= free - stretch ==>
              Arrived(first, second, stretch, free) == first.data[..stretch] + second.data[..free - stretch]
              && !RecvBreaks(first, second, stretch, free)
    ensures |first.data| >= stretch && stretch < free && second.RecvWouldBlock? ==>
              Arrived(first, second, stretch, free) == first.data[..stretch] && !RecvBreaks(first, second, stretch, free)
    ensures |first.data| >= stretch && stretch < free && (second == Bytes([]) || second.Closed? || second.RecvFailed?) ==>
              Arrived(first, second, stretch, free) == first.data[..stretch] && RecvBreaks(first, second, stretch, free)
  {
  }

  /** When both give at least what is free, all of it arrives. */
  lemma AllArrives(first: Received, second: Received, stretch: nat, free: nat)
    requires 0 < stretch <= free && first.Bytes? && second.Bytes? && |first.data| >= free && |second.data| >= free
    ensures |Arrived(first, second, stretch, free)| == free && !RecvBreaks(first, second, stretch, free)
  {
  }

  lemma BreaksExactly(first: Received, second: Received, stretch: nat, free: nat)
    requires 0 < stretch <= free && first.Bytes?
    ensures RecvBreaks(first, second, stretch, free) <==>
            |first.data| >= stretch && stretch < free && (second == Bytes([]) || second.Closed? || second.RecvFailed?)
  {
  }

  /** The send calls, likewise. */
  lemma DepartedExactly(first: Sending, second: Sending, stretch: nat, all: nat)
    requires 0 < stretch <= all && first.Sent?
    ensures first.n < stretch ==>
              Departed(first, second, stretch, all) == first.n && !SendBreaks(first, second, stretch, all)
    ensures first.n >= stretch && stretch == all ==>
              Departed(first, second, stretch, all) == all && !SendBreaks(first, second, stretch, all)
    ensures first.n >= stretch && stretch < all && second.Sent? ==>
              Departed(first, second, stretch, all) == (if second.n < all - stretch then stretch + second.n else all)
              && !SendBreaks(first, second, stretch, all)
    ensures first.n >= stretch && stretch < all && second.SendWouldBlock? ==>
              Departed(first, second, stretch, all) == stretch && !SendBreaks(first, second, stretch, all)
    ensures first.n >= stretch && stretch < all && second.SendFailed? ==>
              Departed(first, second, stretch, all) == stretch && SendBreaks(first, second, stretch, all)
  {
  }

  method Memcpy(a: array<Byte>, at: nat, data: seq<Byte>)
    requires at + |data| <= a.Length
    modifies a
    ensures a[..] == Blit(old(a[..]), at, data)
  {
    forall k | 0 <= k < |data| {
      a[at + k] := data[k];
    }
  }

  /** The one or two copies out of a buffer. */
  method CopyFrom(a: array<Byte>, tail: nat, n: nat) returns (data: seq<Byte>, newTail: nat)
    requires tail < a.Length && n <= a.Length
    ensures data == CopyOut(a[..], tail, n) && newTail == Advance(tail, n, a.Length)
  {
    if n + tail >= a.Length {
      var first := a.Length - tail;
      newTail := n - first;
      data := a[tail..] + a[..newTail];
    } else {
      data := a[tail..tail + n];
      newTail := tail + n;
    }
  }

  lemma BlitNothing(buf: seq<Byte>)
    ensures Blit(buf, 0, []) == buf
  {
  }

  /** The one or two copies into a buffer. */
  method CopyTo(a: array<Byte>, head: nat, data: seq<Byte>) returns (newHead: nat)
    requires head < a.Length && |data| <= a.Length
    modifies a
    ensures a[..] == CopyIn(old(a[..]), head, data) && newHead == Advance(head, |data|, a.Length)
  {
    var first := Min(|data|, a.Length - head);
    Memcpy(a, head, data[..first]);
    if head + |data| >= a.Length {
      Memcpy(a, 0, data[first..]);
      newHead := |data| - first;
    } else {
      BlitNothing(a[..]);
      newHead := head + |data|;
    }
  }

  /** The send calls: up to the end of the buffer, then from its beginning. */
  method SendFrom(a: array<Byte>, tail: nat, all: nat, first: Sending, second: Sending)
    returns (out: seq<Byte>, newTail: nat, dead: bool)
    requires tail < a.Length && 0 < all <= a.Length
    ensures var stretch := Min(all, a.Length - tail);
      && |out| == Departed(first, second, stretch, all)
      && out == CopyOut(a[..], tail, |out|) && newTail == Advance(tail, |out|, a.Length)
      && dead == SendBreaks(first, second, stretch, all)
  {
    var stretch := Min(all, a.Length - tail);
    var n := Passed(first, stretch);
    out := a[tail..tail + n];
    AdvanceIsRemainder(tail, n, a.Length);
    newTail := (tail + n) % a.Length;
    dead := false;
    if n == stretch && stretch < all {
      var more := Passed(second, all - stretch);
      out := out + a[..more];
      if more > 0 {
        newTail := more;
      } else if second.SendFailed? {
        dead := true;
      }
    }
  }

  /** The recv calls: up to the end of the buffer, then from its beginning. */
  method ReceiveInto(a: array<Byte>, head: nat, free: nat, first: Received, second: Received)
    returns (total: nat, newHead: nat, dead: bool)
    requires head < a.Length && 0 < free <= a.Length && first.Bytes?
    modifies a
    ensures var stretch := Min(free, a.Length - head);
      var got := Arrived(first, second, stretch, free);
      && total == |got|
      && a[..] == CopyIn(old(a[..]), head, got) && newHead == Advance(head, total, a.Length)
      && dead == RecvBreaks(first, second, stretch, free)
  {
    var stretch := Min(free, a.Length - head);
    var got := Took(first, stretch);
    Memcpy(a, head, got);
    total := |got|;
    AdvanceIsRemainder(head, total, a.Length);
    newHead := (head + total) % a.Length;
    dead := false;
    if total == stretch && stretch < free {
      var more := Took(second, free - stretch);
      Memcpy(a, 0, more);
      assert (got + more)[..stretch] == got && (got + more)[stretch..] == more;
      if |more| > 0 {
        newHead := |more|;
      } else if Ended(second) {
        dead := true;
      }
      total := total + |more|;
    } else {
      BlitNothing(a[..]);
      assert got[..total] == got && got[total..] == [];
    }
  }

  /** Taking n bytes off the front of a ring. */
  lemma Drain(buf: seq<Byte>, tail: nat, len: nat, n: nat)
    requires tail < |buf| && n <= len <= |buf|
    ensures CopyOut(buf, tail, n) == Contents(buf, tail, len)[..n]
    ensures Contents(buf, tail, len) == Contents(buf, tail, len)[..n] + Contents(buf, Advance(tail, n, |buf|), len - n)
    ensures Advance(Advance(tail, n, |buf|), len - n, |buf|) == Advance(tail, len, |buf|)
  {
    CopyOutIsContents(buf, tail, n);
    ContentsPrefix(buf, tail, len, n);
    ContentsSuffix(buf, tail, len, n);
    AdvanceTwice(tail, n, len - n, |buf|);
  }

  lemma Append(buf: seq<Byte>, tail: nat, len: nat, data: seq<Byte>)
    requires tail < |buf| && len + |data| <= |buf|
    ensures var head := Advance(tail, len, |buf|);
      && Contents(CopyIn(buf, head, data), tail, len + |data|) == Contents(buf, tail, len) + data
      && Advance(head, |data|, |buf|) == Advance(tail, len + |data|, |buf|)
  {
    CopyInExtends(buf, tail, len, data);
    AdvanceTwice(tail, len, |data|, |buf|);
  }

  /** Copying right behind the `len` bytes that are there. */
  method CopyBehind(a: array<Byte>, tail: nat, len: nat, head: nat, data: seq<Byte>) returns (newHead: nat)
    requires tail < a.Length && len + |data| <= a.Length && head == Advance(tail, len, a.Length)
    modifies a
    ensures Contents(a[..], tail, len + |data|) == Contents(old(a[..]), tail, len) + data
    ensures newHead == Advance(tail, len + |data|, a.Length)
  {
    ghost var buf := a[..];
    newHead := CopyTo(a, head, data);
    Append(buf, tail, len, data);
  }

  /** Receiving right behind the `len` bytes that are there. */
  method ReceiveBehind(a: array<Byte>, tail: nat, len: nat, head: nat, first: Received, second: Received)
    returns (total: nat, newHead: nat, dead: bool)
    requires tail < a.Length && len < a.Length && head == Advance(tail, len, a.Length) && first.Bytes?
    modifies a
    ensures var free := a.Length - len;
      var stretch := Min(free, a.Length - head);
      var got := Arrived(first, second, stretch, free);
      && total == |got| && dead == RecvBreaks(first, second, stretch, free)
      && Contents(a[..], tail, len + total) == Contents(old(a[..]), tail, len) + got
      && newHead == Advance(tail, len + total, a.Length)
    ensures second.Bytes? && |first.data| >= a.Length - len && |second.data| >= a.Length - len ==>
      len + total == a.Length
    ensures dead <==>
      (second == Bytes([]) || second.Closed? || second.RecvFailed?)
      && |first.data| >= a.Length - head && a.Length - head < a.Length - len
  {
    ghost var buf := a[..];
    var free := a.Length - len;
    ghost var got := Arrived(first, second, Min(free, a.Length - head), free);
    BreaksExactly(first, second, Min(free, a.Length - head), free);
    if second.Bytes? && |first.data| >= free && |second.data| >= free {
      AllArrives(first, second, Min(free, a.Length - head), free);
    }
    total, newHead, dead := ReceiveInto(a, head, free, first, second);
    Append(buf, tail, len, got);
  }

  lemma Moves(wire: seq<Byte>, out: seq<Byte>, rest: seq<Byte>, whole: seq<Byte>)
    requires whole == out + rest
    ensures wire + out + rest == wire + whole
  {
  }

  lemma Joined(wire: seq<Byte>, unsent: seq<Byte>, data: seq<Byte>, direct: nat, n: nat)
    requires direct + n <= |data| && (direct == 0 || unsent == [])
    ensures wire + data[..direct] + (unsent + data[direct..][..n]) == wire + unsent + data[..direct + n]
  {
    assert data[..direct] + data[direct..][..n] == data[..direct + n];
    if direct == 0 {
      assert wire + data[..direct] == wire;
      assert wire + (unsent + data[direct..][..n]) == wire + unsent + data[direct..][..n];
    } else {
      assert unsent + data[direct..][..n] == data[direct..][..n];
      assert wire + data[..direct] + data[direct..][..n] == wire + (data[..direct] + data[direct..][..n]);
    }
  }

  class Socket {
    const readBuffer: array<Byte>
    const writeBuffer: array<Byte>
    const readCondition: nat
    const writeCondition: nat
    var readHead: nat
    var readTail: nat
    var writeHead: nat
    var writeTail: nat
    var word: SW.Word
    ghost var wire: seq<Byte>      // everything send has taken

    ghost predicate Valid()
      reads this
    {
      && readBuffer != writeBuffer
      && readBuffer.Length == writeBuffer.Length > 0
      && readTail < readBuffer.Length && writeTail < writeBuffer.Length
      && word.count <= readBuffer.Length && word.avail <= writeBuffer.Length
      && readHead == Advance(readTail, word.count, readBuffer.Length)
      && writeHead == Advance(writeTail, writeBuffer.Length - word.avail, writeBuffer.Length)
    }

    /** Received bytes not read yet. */
    ghost function Unread(): seq<Byte>
      requires Valid()
      reads this, readBuffer
    {
      Contents(readBuffer[..], readTail, word.count)
    }

    /** Written bytes not sent yet. */
    ghost function Unsent(): seq<Byte>
      requires Valid()
      reads this, writeBuffer
    {
      Contents(writeBuffer[..], writeTail, writeBuffer.Length - word.avail)
    }

    /** schedi_job_tool_epollsocket */
    constructor (size: nat, readCondition: nat, writeCondition: nat)
      requires 0 < size
      ensures Valid() && fresh(readBuffer) && fresh(writeBuffer) && readBuffer.Length == size
      ensures this.readCondition == readCondition && this.writeCondition == writeCondition
      ensures Unread() == [] && Unsent() == [] && wire == []
      ensures SW.Coherent(word, readCondition, writeCondition) && !word.dead
    {
      readBuffer := new Byte[size](_ => 0);
      writeBuffer := new Byte[size](_ => 0);
      this.readCondition, this.writeCondition := readCondition, writeCondition;
      readHead, readTail, writeHead, writeTail := 0, 0, 0, 0;
      word := SW.Created(size, readCondition, writeCondition);
      wire := [];
    }

    /** schedi_job_epollsocket_read: the oldest unread bytes, as many as asked for and
        there are. */
    method Read(size: nat) returns (data: seq<Byte>)
      requires Valid()
      modifies this`readTail, this`word
      ensures Valid()
      ensures |data| == Min(old(word.count), size)
      ensures data + Unread() == old(Unread())
      ensures word == SW.CountAdd(old(word), 0 - |data|, false, readCondition)
    {
      var n: int := Min(word.count, size);
      Drain(readBuffer[..], readTail, word.count, n);
      var tail;
      data, tail := CopyFrom(readBuffer, readTail, n);
      word := SW.CountAdd(word, 0 - n, false, readCondition);
      readTail := tail;
    }

    /** schedi_job_epollsocket_write_buffer_data: the part of the data that fits. */
    method WriteBufferData(data: seq<Byte>) returns (total: nat)
      requires Valid()
      modifies this`writeHead, this`word, writeBuffer
      ensures Valid()
      ensures total == Min(|data|, old(word.avail))
      ensures Unsent() == old(Unsent()) + data[..total]
      ensures word == SW.AvailAdd(old(word), 0 - total, false, writeCondition)
    {
      total := Min(|data|, word.avail);
      writeHead := CopyBehind(writeBuffer, writeTail, writeBuffer.Length - word.avail, writeHead, data[..total]);
      word := SW.AvailAdd(word, 0 - total, false, writeCondition);
    }

    /** `Write` once the direct send, if any, has taken `sent` bytes. */
    method WriteFrom(data: seq<Byte>, sent: nat) returns (total: nat)
      requires Valid() && sent <= |data| && (sent == 0 || word.avail == writeBuffer.Length)
      modifies this`writeHead, this`word, this`wire, writeBuffer
      ensures Valid()
      ensures total == sent + Min(|data| - sent, old(word.avail))
      ensures wire == old(wire) + data[..sent]
      ensures wire + Unsent() == old(wire) + old(Unsent()) + data[..total]
      ensures word == if sent == |data| then old(word)
                      else SW.AvailAdd(old(word), sent - total, false, writeCondition)
    {
      Joined(wire, Unsent(), data, sent, Min(|data| - sent, word.avail));
      wire := wire + data[..sent];
      total := sent;
      if sent < |data| {
        var n := WriteBufferData(data[sent..]);
        total := sent + n;
      }
    }

    /** schedi_job_epollsocket_write: straight to send when nothing is buffered, the
        rest into the buffer.  The result is the length of the accepted part, or -1
        when the direct send failed and nothing was taken. */
    method Write(data: seq<Byte>, direct: Sending) returns (ret: int)
      requires Valid()
      modifies this`writeHead, this`word, this`wire, writeBuffer
      ensures Valid()
      ensures ret == -1 <==> old(word.avail) == writeBuffer.Length && direct.SendFailed?
      ensures ret == -1 ==> wire == old(wire) && Unsent() == old(Unsent()) && word == SW.MarkDead(old(word))
      ensures ret != -1 ==>
        var sent := if old(word.avail) == writeBuffer.Length then Passed(direct, |data|) else 0;
        && ret == sent + Min(|data| - sent, old(word.avail))
        && wire == old(wire) + data[..sent]
        && wire + Unsent() == old(wire) + old(Unsent()) + data[..ret]
        && word == if sent == |data| then old(word) else SW.AvailAdd(old(word), sent - ret, false, writeCondition)
    {
      var sent := 0;
      if word.avail == writeBuffer.Length {
        if direct.SendFailed? {
          word := SW.MarkDead(word);
          return -1;
        }
        sent := Passed(direct, |data|);
      }
      ret := WriteFrom(data, sent);
    }

    /** The part of `WriteReturn` behind its early returns. */
    method SendOut(first: Sending, second: Sending) returns (total: nat, dead: bool)
      requires Valid() && word.avail < writeBuffer.Length
      modifies this`writeTail, this`word, this`wire
      ensures Valid()
      ensures wire + Unsent() == old(wire + Unsent()) && |wire| == |old(wire)| + total
      ensures var all := writeBuffer.Length - old(word.avail);
        var stretch := Min(all, writeBuffer.Length - old(writeTail));
        total == Departed(first, second, stretch, all) && dead == SendBreaks(first, second, stretch, all)
      ensures word == SW.AvailAdd(old(word), total, dead, writeCondition)
    {
      var all := writeBuffer.Length - word.avail;
      var out, tail;
      out, tail, dead := SendFrom(writeBuffer, writeTail, all, first, second);
      total := |out|;
      Drain(writeBuffer[..], writeTail, all, total);
      Moves(wire, out, Contents(writeBuffer[..], tail, all - total), Unsent());
      wire := wire + out;
      word := SW.AvailAdd(word, total, dead, writeCondition);
      writeTail := tail;
    }

    /** schedi_job_epollsocket_write_return: whatever send answers, the wire and the
        buffer together stay the same bytes in the same order. */
    method WriteReturn(first: Sending, second: Sending) returns (ret: int)
      requires Valid()
      modifies this`writeTail, this`word, this`wire
      ensures Valid()
      ensures wire + Unsent() == old(wire + Unsent())
      ensures
        var all := writeBuffer.Length - old(word.avail);
        var stretch := Min(all, writeBuffer.Length - old(writeTail));
        var total := Departed(first, second, stretch, all);
        if all == 0 || first.SendWouldBlock? then
          ret == 0 && wire == old(wire) && word == old(word)
        else if first.SendFailed? then
          ret == -1 && wire == old(wire) && word == SW.MarkDead(old(word))
        else
          var dead := SendBreaks(first, second, stretch, all);
          && ret == (if dead then -1 else total)
          && |wire| == |old(wire)| + total
          && word == SW.AvailAdd(old(word), total, dead, writeCondition)
      // both calls take all they are offered: the buffer is empty
      ensures var all := writeBuffer.Length - old(word.avail);
        (first.Sent? && second.Sent? && first.n >= all && second.n >= all ==> word.avail == writeBuffer.Length)
      // the result is -1 exactly when a call that is made fails hard
      ensures ret == -1 <==>
        old(word.avail) < writeBuffer.Length
        && (first.SendFailed?
            || (first.Sent? && second.SendFailed? && first.n >= writeBuffer.Length - old(writeTail)
                && writeBuffer.Length - old(writeTail) < writeBuffer.Length - old(word.avail)))
      ensures word.dead <==> old(word.dead) || ret == -1
    {
      if word.avail == writeBuffer.Length || first.SendWouldBlock? {
        return 0;
      }
      if first.SendFailed? {
        word := SW.MarkDead(word);
        return -1;
      }
      var total, dead := SendOut(first, second);
      ret := if dead then -1 else total;
    }

    /** The part of `ReadReturn` behind its early returns. */
    method ReceiveIn(first: Received, second: Received) returns (total: nat, dead: bool)
      requires Valid() && word.count < readBuffer.Length && first.Bytes?
      modifies this`readHead, this`word, readBuffer
      ensures Valid()
      ensures var free := readBuffer.Length - old(word.count);
        var stretch := Min(free, readBuffer.Length - old(readHead));
        var got := Arrived(first, second, stretch, free);
        && total == |got| && dead == RecvBreaks(first, second, stretch, free)
        && Unread() == old(Unread()) + got
      ensures var free := readBuffer.Length - old(word.count);
        second.Bytes? && |first.data| >= free && |second.data| >= free ==> total == free
      ensures dead <==>
        (second == Bytes([]) || second.Closed? || second.RecvFailed?)
        && |first.data| >= readBuffer.Length - old(readHead)
        && readBuffer.Length - old(readHead) < readBuffer.Length - old(word.count)
      ensures word == SW.CountAdd(old(word), total, dead, readCondition)
    {
      var w, head := word, readHead;
      total, readHead, dead := ReceiveBehind(readBuffer, readTail, w.count, head, first, second);
      word := SW.CountAdd(w, total, dead, readCondition);
      assert word.count == w.count + total;
    }

    /** schedi_job_epollsocket_read_return: what recv gives joins the unread bytes at
        their end. */
    method ReadReturn(first: Received, second: Received) returns (ret: int)
      requires Valid()
      modifies this`readHead, this`word, readBuffer
      ensures Valid()
      ensures
        var free := readBuffer.Length - old(word.count);
        var stretch := Min(free, readBuffer.Length - old(readHead));
        var got := Arrived(first, second, stretch, free);
        if free == 0 || first.RecvWouldBlock? then
          ret == 0 && Unread() == old(Unread()) && word == old(word)
        else if Ended(first) then
          ret == -1 && Unread() == old(Unread()) && word == SW.MarkDead(old(word))
        else
          var dead := RecvBreaks(first, second, stretch, free);
          && ret == (if dead then -1 else |got|)
          && Unread() == old(Unread()) + got
          && word == SW.CountAdd(old(word), |got|, dead, readCondition)
      // both calls give all they are asked for: the buffer is full
      ensures var free := readBuffer.Length - old(word.count);
        (first.Bytes? && second.Bytes? && |first.data| >= free && |second.data| >= free ==>
           word.count == readBuffer.Length)
      // the result is -1 exactly when a call that is made meets the end or an error
      ensures ret == -1 <==>
        old(word.count) < readBuffer.Length
        && (first == Bytes([]) || first.Closed? || first.RecvFailed?
            || (first.Bytes? && (second == Bytes([]) || second.Closed? || second.RecvFailed?)
                && |first.data| >= readBuffer.Length - old(readHead)
                && readBuffer.Length - old(readHead) < readBuffer.Length - old(word.count)))
      ensures word.dead <==> old(word.dead) || ret == -1
    {
      if word.count == readBuffer.Length || first.RecvWouldBlock? {
        return 0;
      }
      if Ended(first) {
        word := SW.MarkDead(word);
        return -1;
      }
      var total, dead := ReceiveIn(first, second);
      ret := if dead then -1 else total;
    }
  }
}
