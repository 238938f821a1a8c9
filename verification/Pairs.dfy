/**
 * Socket pairs (src/kernel/syscall.c): one growing buffer that is compacted as it is
 * written to, with the bounds of messages and the descriptors sent with them, as a queue
 * of whole messages or as a stream with descriptors at places in it.
 */
module Pairs {
  import opened Base
  import opened Bits

  const CAP: nat := 65536

  /** Where a message's bytes start in all that was ever written, how many a packet has, and its descriptors. */
  datatype Message = Message(at: nat, len: nat, fds: seq<nat>)

  datatype Packet = Packet(bytes: seq<Byte>, fds: seq<nat>)

  datatype Error = TooBig | TryAgain | NoBuffers

  function All(parts: seq<seq<Byte>>): (r: seq<Byte>)
  {
    if parts == [] then [] else All(parts[..|parts| - 1]) + parts[|parts| - 1]
  }

  lemma {:induction false} PartsNext(parts: seq<seq<Byte>>, i: nat)
    requires i < |parts|
    ensures All(parts[..i + 1]) == All(parts[..i]) + parts[i]
  {
    assert parts[..i + 1][..i] == parts[..i];
  }

  lemma {:induction false} PartsUpTo(parts: seq<seq<Byte>>, i: nat)
    requires i <= |parts|
    ensures |All(parts[..i])| <= |All(parts)|
    decreases |parts| - i
  {
    if i < |parts| {
      PartsNext(parts, i);
      PartsUpTo(parts, i + 1);
    } else {
      assert parts[..i] == parts;
    }
  }

  /** Bytes the messages have between them. */
  function Size(msgs: seq<Message>): (n: nat)
  {
    if msgs == [] then 0 else msgs[0].len + Size(msgs[1..])
  }

  lemma {:induction false} SizeMore(msgs: seq<Message>, m: Message)
    ensures Size(msgs + [m]) == Size(msgs) + m.len
  {
    if msgs != [] {
      assert (msgs + [m])[1..] == msgs[1..] + [m];
      SizeMore(msgs[1..], m);
    }
  }

  /** The bytes cut into messages. */
  function Packets(bytes: seq<Byte>, msgs: seq<Message>): (q: seq<Packet>)
    requires |bytes| == Size(msgs)
    ensures |q| == |msgs|
    decreases |msgs|
  {
    if msgs == [] then [] else [Packet(bytes[..msgs[0].len], msgs[0].fds)] + Packets(bytes[msgs[0].len..], msgs[1..])
  }

  lemma {:induction false} PacketsMore(bytes: seq<Byte>, msgs: seq<Message>, more: seq<Byte>, m: Message)
    requires |bytes| == Size(msgs) && m.len == |more|
    ensures Size(msgs + [m]) == |bytes + more|
    ensures Packets(bytes + more, msgs + [m]) == Packets(bytes, msgs) + [Packet(more, m.fds)]
    decreases |msgs|
  {
    SizeMore(msgs, m);
    if msgs == [] {
      assert bytes == [] && bytes + more == more && msgs + [m] == [m];
      assert more[..m.len] == more && more[m.len..] == [] && [m][1..] == [];
    } else {
      var n := msgs[0].len;
      assert (msgs + [m])[1..] == msgs[1..] + [m];
      assert (bytes + more)[..n] == bytes[..n] && (bytes + more)[n..] == bytes[n..] + more;
      PacketsMore(bytes[n..], msgs[1..], more, m);
    }
  }

  /** Messages in the order of their places, none before what has been taken or past what was written. */
  ghost predicate InPlace(msgs: seq<Message>, taken: nat, wrote: nat)
  {
    && (forall i :: 0 <= i < |msgs| ==> taken <= msgs[i].at <= wrote)
    && forall i, j :: 0 <= i < j < |msgs| ==> msgs[i].at <= msgs[j].at
  }

  ghost predicate EndsWith(all: seq<Message>, msgs: seq<Message>)
  {
    |msgs| <= |all| && all[|all| - |msgs|..] == msgs
  }

  /** Nothing of so many bytes goes in: the buffer is full, or has to grow and cannot. */
  predicate Stuck(held: nat, size: nat, memory: bool, count: nat)
  {
    count > 0 && (held >= CAP || (!memory && held + (if count < CAP - held then count else CAP - held) > size))
  }

  /** The size of the first part that is not empty. */
  function FirstSize(parts: seq<seq<Byte>>): (n: nat)
  {
    if parts == [] then 0 else if parts[0] != [] then |parts[0]| else FirstSize(parts[1..])
  }

  /** Which it is. */
  function First(parts: seq<seq<Byte>>): (i: nat)
  {
    if parts == [] || parts[0] != [] then 0 else 1 + First(parts[1..])
  }

  lemma {:induction false} OnePart(b: Byte)
    ensures All([[b]]) == [b] && FirstSize([[b]]) == 1 && First([[b]]) == 0
  {
    assert [[b]][..0] == [];
    assert All([]) == [];
  }

  /** There is memory for every part. */
  ghost predicate Granted(parts: seq<seq<Byte>>, memory: nat -> bool)
  {
    forall i :: 0 <= i < |parts| ==> memory(i)
  }

  lemma {:induction false} GrantedAt(parts: seq<seq<Byte>>, memory: nat -> bool, i: nat)
    requires i < |parts|
    ensures Granted(parts, memory) ==> memory(i)
  {
  }

  /** So many bytes are the parts before one for which there was no memory. */
  ghost predicate Denied(parts: seq<seq<Byte>>, memory: nat -> bool, done: nat)
  {
    exists k :: 0 <= k < |parts| && !memory(k) && done == |All(parts[..k])|
  }

  lemma {:induction false} DeniedAt(parts: seq<seq<Byte>>, memory: nat -> bool, k: nat)
    requires k < |parts| && !memory(k)
    ensures Denied(parts, memory, |All(parts[..k])|)
  {
    hide All;
  }

  lemma {:induction false} FullIs(held: nat, size: nat, memory: bool, count: nat)
    requires held >= CAP && count > 0
    ensures Stuck(held, size, memory, count)
  {
  }

  lemma {:induction false} NotStuck(held: nat, size: nat, memory: bool)
    ensures !Stuck(held, size, memory, 0)
  {
  }

  lemma {:induction false} FirstIs(parts: seq<seq<Byte>>, i: nat)
    requires i <= |parts| && forall j :: 0 <= j < i ==> parts[j] == []
    ensures i < |parts| && parts[i] != [] ==> FirstSize(parts) == |parts[i]| && First(parts) == i
    ensures i == |parts| ==> FirstSize(parts) == 0
  {
    if parts != [] && i > 0 { FirstIs(parts[1..], i - 1); }
  }

  lemma {:induction false} FirstNone(parts: seq<seq<Byte>>)
    ensures FirstSize(parts) == 0 <==> All(parts) == []
  {
    if FirstSize(parts) == 0 { AllEmpty(parts); } else { assert parts[0..] == parts; SomeFull(parts, 0); }
  }

  lemma {:induction false} AllEmpty(parts: seq<seq<Byte>>)
    requires FirstSize(parts) == 0
    ensures All(parts) == [] && forall j :: 0 <= j < |parts| ==> parts[j] == []
  {
    if parts != [] {
      AllEmpty(parts[1..]);
      assert forall j :: 0 <= j < |parts| ==> parts[j] == if j == 0 then parts[0] else parts[1..][j - 1];
      NothingAll(parts);
    }
  }

  lemma {:induction false} NothingAll(parts: seq<seq<Byte>>)
    requires forall j :: 0 <= j < |parts| ==> parts[j] == []
    ensures All(parts) == []
  {
    if parts != [] { NothingAll(parts[..|parts| - 1]); }
  }

  lemma {:induction false} SomeFull(parts: seq<seq<Byte>>, i: nat)
    requires i <= |parts| && FirstSize(parts[i..]) > 0
    ensures All(parts) != []
    decreases |parts| - i
  {
    if parts[i] != [] {
      PartsNext(parts, i);
      PartsUpTo(parts, i + 1);
    } else {
      assert parts[i..][1..] == parts[i + 1..];
      SomeFull(parts, i + 1);
    }
  }

  lemma {:induction false} SliceMore(s: seq<Byte>, at: nat, more: seq<Byte>)
    requires at <= |s|
    ensures (s + more)[at..] == s[at..] + more
  {
  }

  /** count bytes from at to the front. */
  method MoveDown(a: array<Byte>, at: nat, count: nat)
    requires at + count <= a.Length
    modifies a
    ensures a[0..count] == old(a[at..at + count])
  {
    for k := 0 to count
      invariant forall j :: 0 <= j < k ==> a[j] == old(a[at + j])
      invariant forall j :: k <= j < a.Length ==> a[j] == old(a[j])
    {
      a[k] := a[at + k];
    }
  }

  /** The first count bytes in a buffer of their own. */
  method Larger(a: array<Byte>, count: nat, size: nat) returns (b: array<Byte>)
    requires count <= a.Length && count <= size
    ensures fresh(b) && b.Length == size && b[0..count] == a[0..count]
  {
    b := new Byte[size];
    for k := 0 to count
      invariant forall j :: 0 <= j < k ==> b[j] == a[j]
    {
      b[k] := a[k];
    }
  }

  method Store(a: array<Byte>, at: nat, s: seq<Byte>)
    requires at + |s| <= a.Length
    modifies a
    ensures a[0..at + |s|] == old(a[0..at]) + s
  {
    for k := 0 to |s|
      invariant forall j :: 0 <= j < k ==> a[at + j] == s[j]
      invariant forall j :: 0 <= j < at ==> a[j] == old(a[j])
    {
      a[at + k] := s[k];
    }
    assert forall j :: at <= j < at + |s| ==> a[j] == s[j - at] by {
      forall j | at <= j < at + |s| ensures a[j] == s[j - at] { assert a[at + (j - at)] == s[j - at]; }
    }
  }

  class Pipe {
    var data: array<Byte>
    var len: nat
    var readAt: nat
    var wrote: nat
    var taken: nat
    const packets: bool
    var msgs: seq<Message>
    /** All that was ever written, and all messages ever sent. */
    ghost var sent: seq<Byte>
    ghost var batches: seq<Message>

    ghost function Bytes(): seq<Byte>
      reads this`data, this`readAt, this`len, data
    {
      if readAt <= len <= data.Length then data[readAt..len] else []
    }

    ghost predicate Holds()
      reads this`data, this`readAt, this`len, this`wrote, this`taken, this`sent, data
    {
      && readAt <= len <= data.Length && 0 < data.Length && len <= CAP
      && wrote == |sent| && taken + (len - readAt) == wrote && Bytes() == sent[taken..]
    }

    ghost predicate Valid()
      reads this, data
    {
      Holds() && EndsWith(batches, msgs) && (if packets then Size(msgs) == |Bytes()| else InPlace(msgs, taken, wrote))
    }

    /** A packet pair's messages, oldest first. */
    ghost function Queue(): seq<Packet>
      reads this, data
    {
      if Size(msgs) == |Bytes()| then Packets(Bytes(), msgs) else []
    }

    constructor (size: nat, packets: bool)
      requires size > 0
      ensures Valid() && fresh(data) && this.packets == packets && msgs == [] && sent == [] && batches == []
        && Bytes() == []
    {
      this.packets := packets;
      data := new Byte[size];
      len, readAt, wrote, taken, msgs, sent, batches := 0, 0, 0, 0, [], [], [];
    }

    /** What has been read moved out of the way. */
    method Compact()
      requires Holds()
      modifies this`len, this`readAt, data
      ensures Holds() && readAt == 0 && Bytes() == old(Bytes())
    {
      MoveDown(data, readAt, len - readAt);
      len, readAt := len - readAt, 0;
    }

    /** A buffer of twice the size, or as many times that as it takes. */
    method Grow(need: nat)
      requires Holds() && readAt == 0
      modifies this`data
      ensures Holds() && fresh(data) && data.Length >= need && Bytes() == old(Bytes()) && readAt == 0
    {
      var want := data.Length;
      while want < need
        invariant want >= data.Length > 0
        decreases need - want
      {
        want := want * 2;
      }
      data := Larger(data, len, want);
    }

    /** As much more as there is room for; none if the buffer has to grow and there is no memory. */
    method Put(from: seq<Byte>, memory: bool) returns (n: nat)
      requires Holds()
      modifies this`data, this`len, this`readAt, this`wrote, this`sent, data
      ensures Holds() && (data == old(data) || fresh(data)) && wrote == old(wrote) + n
      ensures n <= |from| && sent == old(sent) + from[..n] && Bytes() == old(Bytes()) + from[..n]
      ensures memory ==> n == (if |from| < CAP - |old(Bytes())| then |from| else CAP - |old(Bytes())|)
      ensures 0 < n < |from| ==> |Bytes()| == CAP
      ensures n == 0 <==> from == [] || Stuck(|old(Bytes())|, old(data.Length), memory, |from|)
      ensures n == 0 ==> data == old(data)
    {
      ghost var b, s, t := Bytes(), sent, taken;
      Compact();
      n := if |from| > CAP - len then CAP - len else |from|;
      if len + n > data.Length {
        if !memory {
          n := 0;
          assert from[..0] == [];
          return;
        }
        Grow(len + n);
      }
      Store(data, len, from[..n]);
      SliceMore(s, t, from[..n]);
      len, wrote, sent := len + n, wrote + n, sent + from[..n];
    }

    /** The oldest bytes, count of them or all there are. */
    method Read(count: nat) returns (out: seq<Byte>)
      requires Holds()
      modifies this`readAt, this`len, this`taken
      ensures Holds() && |out| == (if count < |old(Bytes())| then count else |old(Bytes())|)
      ensures out == old(Bytes())[..|out|] && Bytes() == old(Bytes())[|out|..] && taken == old(taken) + |out|
    {
      ghost var b := Bytes();
      var n := if count > len - readAt then len - readAt else count;
      out := data[readAt..readAt + n];
      assert out == b[..n];
      assert sent[taken..][n..] == sent[taken + n..];
      readAt, taken := readAt + n, taken + n;
      assert data[readAt..len] == b[n..];
      if readAt == len {
        readAt, len := 0, 0;
      }
    }

    /** A message noted, unless there is no memory to. */
    method Push(m: Message, memory: bool) returns (ok: bool)
      modifies this`msgs, this`batches
      ensures ok == memory
      ensures msgs == (if ok then old(msgs) + [m] else old(msgs))
        && batches == (if ok then old(batches) + [m] else old(batches))
    {
      if memory {
        msgs, batches := msgs + [m], batches + [m];
      }
      ok := memory;
    }

    /** A message of any number of parts on a packet pair: all of it or none. */
    method PutPacket(parts: seq<seq<Byte>>, fds: seq<nat>, memory: bool) returns (r: Option<Error>)
      requires Valid() && packets
      modifies this, data
      ensures Valid() && (data == old(data) || fresh(data))
      ensures r == if |All(parts)| > CAP then Some(TooBig) else if CAP - |old(Bytes())| < |All(parts)|
        then Some(TryAgain)
                   else if !memory then Some(NoBuffers) else None
      ensures Queue() == if r.None? then old(Queue()) + [Packet(All(parts), fds)] else old(Queue())
      ensures batches == if r.None? then old(batches) + [Message(old(wrote), |All(parts)|, fds)] else old(batches)
    {
      hide InPlace, Packets;
      var total := |All(parts)|;
      if total > CAP {
        return Some(TooBig);
      }
      if CAP - (len - readAt) < total {
        return Some(TryAgain);
      }
      var m := Message(wrote, total, fds);
      PacketsMore(Bytes(), msgs, All(parts), m);
      SuffixMore(batches, msgs, m);
      var ok := Push(m, memory);
      if !ok {
        return Some(NoBuffers);
      }
      PutAll(parts);
      r := None;
    }

    /** Parts that there is room for. */
    method PutAll(parts: seq<seq<Byte>>)
      requires Holds() && |Bytes()| + |All(parts)| <= CAP
      modifies this`data, this`len, this`readAt, this`wrote, this`sent, data
      ensures Holds() && (data == old(data) || fresh(data)) && Bytes() == old(Bytes()) + All(parts)
        && sent == old(sent) + All(parts)
    {
      hide Holds, Bytes, All;
      ghost var b, s := Bytes(), sent;
      NoParts(parts);
      for i := 0 to |parts|
        invariant Holds() && (data == old(data) || fresh(data))
        invariant Bytes() == b + All(parts[..i]) && sent == s + All(parts[..i])
      {
        PartsNext(parts, i);
        PartsUpTo(parts, i + 1);
        var n := Put(parts[i], true);
        assert parts[i][..n] == parts[i];
      }
      assert parts[..|parts|] == parts;
    }

    /** limit of the bytes at most, one buffer after another. */
    method ReadInto(sizes: seq<nat>, limit: nat) returns (out: seq<Byte>)
      requires Holds() && limit <= |Bytes()|
      modifies this`readAt, this`len, this`taken
      ensures Holds() && |out| == (if limit < Sum(sizes) then limit else Sum(sizes))
      ensures out == old(Bytes())[..|out|] && Bytes() == old(Bytes())[|out|..] && taken == old(taken) + |out|
    {
      hide Holds, Bytes, Sum;
      ghost var b := Bytes();
      out := [];
      var i: nat := 0;
      var want := Sum(sizes);
      SumStart(sizes);
      while i < |sizes| && |out| < limit && |out| < want
        invariant i <= |sizes| && Holds() && |out| == (if limit < Sum(sizes[..i]) then limit else Sum(sizes[..i]))
          && |out| <= limit
        invariant out == b[..|out|] && Bytes() == b[|out|..] && taken == old(taken) + |out|
      {
        var k := if sizes[i] < limit - |out| then sizes[i] else limit - |out|;
        SumNext(sizes, i);
        ghost var n := |out|;
        var more := Read(k);
        Taken(b, n, |more|);
        out := out + more;
        i := i + 1;
      }
      SumEnd(sizes, i);
    }

    /** len bytes, as many of them as fit kept and the rest lost. */
    method ReadWhole(sizes: seq<nat>, len': nat) returns (out: seq<Byte>, cut: bool)
      requires Holds() && len' <= |Bytes()|
      modifies this`readAt, this`len, this`taken
      ensures Holds() && |out| == (if len' < Sum(sizes) then len' else Sum(sizes)) && (cut <==> |out| < len')
      ensures out == old(Bytes())[..|out|] && Bytes() == old(Bytes())[len'..] && taken == old(taken) + len'
    {
      hide *;
      ghost var b := Bytes();
      out := ReadInto(sizes, len');
      ghost var n := |out|;
      cut := |out| < len';
      if cut {
        var lost := Read(len' - |out|);
        Taken(b, n, |lost|);
      }
    }

    /**
     * The oldest message of a packet pair into buffers of these sizes: as much as fits, the
     * rest lost. Its descriptors are handed over, or let go of when not asked for.
     */
    method TakePacket(sizes: seq<nat>, ask: bool)
        returns (out: seq<Byte>, cut: bool, given: seq<nat>, released: seq<nat>)
      requires Valid() && packets
      modifies this`readAt, this`len, this`taken, this`msgs
      ensures Valid() && batches == old(batches) && sent == old(sent)
      ensures Received(old(Queue()), Queue(), Sum(sizes), ask, out, cut, given, released)
    {
      hide *;
      PacketParts(this);
      if msgs == [] {
        NoneReceived(Sum(sizes), ask);
        return [], false, [], [];
      }
      out, cut, given, released := TakeFirst(sizes, ask);
    }

    method TakeFirst(sizes: seq<nat>, ask: bool)
        returns (out: seq<Byte>, cut: bool, given: seq<nat>, released: seq<nat>)
      requires Valid() && packets && msgs != []
      modifies this`readAt, this`len, this`taken, this`msgs
      ensures Valid() && batches == old(batches) && sent == old(sent)
      ensures Received(old(Queue()), Queue(), Sum(sizes), ask, out, cut, given, released)
    {
      hide *;
      PacketParts(this);
      var m, rest := msgs[0], msgs[1..];
      ghost var b, all := Bytes(), msgs;
      FirstLeft(b, msgs);
      SuffixLess(batches, msgs);
      out, cut := ReadWhole(sizes, m.len);
      given, released := if ask then m.fds else [], if ask then [] else m.fds;
      OneReceived(b, all, Sum(sizes), ask, out, cut, given, released);
      msgs := rest;
      PacketsValid(this);
    }

    /**
     * Bytes on a stream pair, as many as there is room for, after the place of the descriptors
     * that go with them. A send of which nothing goes in is refused, and has left its descriptors
     * all the same.
     */
    method PutStream(parts: seq<seq<Byte>>, fds: seq<nat>, room: bool, memory: nat -> bool)
        returns (done: nat, r: Option<Error>)
      requires Valid() && !packets
      modifies this, data
      ensures Valid() && (data == old(data) || fresh(data))
      ensures done <= |All(parts)| && Bytes() == old(Bytes()) + All(parts)[..done]
        && sent == old(sent) + All(parts)[..done]
      ensures batches == if fds != [] && room then old(batches) + [Message(old(wrote), 0, fds)] else old(batches)
      ensures msgs == if fds != [] && room then old(msgs) + [Message(old(wrote), 0, fds)] else old(msgs)
      ensures r == if fds != [] && !room then Some(NoBuffers)
                   else if done == 0 && All(parts) != [] then Some(TryAgain) else None
      ensures Granted(parts, memory) && !(fds != [] && !room) ==>
        done == (if |All(parts)| < CAP - |old(Bytes())| then |All(parts)| else CAP - |old(Bytes())|)
      ensures !(fds != [] && !room) && done < |All(parts)| && |Bytes()| < CAP ==> Denied(parts, memory, done)
      ensures r.Some? && msgs != old(msgs) <==>
        fds != [] && room && All(parts) != []
          && Stuck(|old(Bytes())|, old(data.Length), memory(First(parts)), FirstSize(parts))
    {
      hide *;
      var ok := Announce(fds, room);
      if !ok {
        Nothing(Bytes(), sent, All(parts));
        return 0, Some(NoBuffers);
      }
      done := PutRest(parts, memory);
      r := if done == 0 && All(parts) != [] then Some(TryAgain) else None;
    }

    /** Descriptors noted at the place where the next byte goes. */
    method Announce(fds: seq<nat>, room: bool) returns (ok: bool)
      requires Valid() && !packets
      modifies this`msgs, this`batches
      ensures Valid() && (ok <==> fds == [] || room)
      ensures batches == if fds != [] && room then old(batches) + [Message(wrote, 0, fds)] else old(batches)
      ensures msgs == if fds != [] && room then old(msgs) + [Message(wrote, 0, fds)] else old(msgs)
    {
      hide *;
      StreamParts(this);
      ok := true;
      if fds != [] {
        PlacedMore(batches, msgs, taken, wrote, fds);
        ok := Push(Message(wrote, 0, fds), room);
      }
      StreamValid(this);
    }

    /** The bytes of a send, once its descriptors are noted. */
    method PutRest(parts: seq<seq<Byte>>, memory: nat -> bool) returns (done: nat)
      requires Valid() && !packets
      modifies this`data, this`len, this`readAt, this`wrote, this`sent, data
      ensures Valid() && (data == old(data) || fresh(data))
      ensures done <= |All(parts)| && Bytes() == old(Bytes()) + All(parts)[..done]
        && sent == old(sent) + All(parts)[..done]
      ensures Granted(parts, memory) ==>
        done == (if |All(parts)| < CAP - |old(Bytes())| then |All(parts)| else CAP - |old(Bytes())|)
      ensures done == 0 <==>
        All(parts) == [] || Stuck(|old(Bytes())|, old(data.Length), memory(First(parts)), FirstSize(parts))
      ensures done < |All(parts)| && |Bytes()| < CAP ==> Denied(parts, memory, done)
    {
      hide *;
      StreamParts(this);
      ghost var w := wrote;
      done := PutSome(parts, memory);
      WroteMore(msgs, taken, w, wrote);
      StreamValid(this);
    }

    /**
     * A byte and a descriptor sent to a full stream: the send is refused, and its sender then
     * closes the descriptor; but it is queued, and will be handed out too.
     */
    method RefusedSend(byte: Byte, fd: nat) returns (done: nat, r: Option<Error>)
      requires Valid() && !packets && |Bytes()| == CAP
      modifies this, data
      ensures Valid() && r == Some(TryAgain) && done == 0 && Bytes() == old(Bytes())
        && msgs == old(msgs) + [Message(old(wrote), 0, [fd])]
    {
      hide *;
      OnePart(byte);
      var memory: nat -> bool := _ => true;
      FullIs(CAP, data.Length, memory(First([[byte]])), 1);
      done, r := PutStream([[byte]], [fd], true, memory);
      Nothing(old(Bytes()), old(sent), All([[byte]]));
      StreamParts(this);
    }

    /** One part of a write, in as many steps as it goes in. */
    method Write(part: seq<Byte>, memory: bool) returns (n: nat)
      requires Holds()
      modifies this`data, this`len, this`readAt, this`wrote, this`sent, data
      ensures Holds() && (data == old(data) || fresh(data)) && wrote == old(wrote) + n
      ensures n <= |part| && sent == old(sent) + part[..n] && Bytes() == old(Bytes()) + part[..n]
      ensures n < |part| ==> |Bytes()| == CAP || (!memory && n == 0)
      ensures n == 0 <==> part == [] || Stuck(|old(Bytes())|, old(data.Length), memory, |part|)
      ensures n == 0 ==> data == old(data)
    {
      hide Holds, Bytes, Stuck;
      ghost var b, s := Bytes(), sent;
      n := 0;
      var more := true;
      while more && n < |part|
        invariant Holds() && (data == old(data) || fresh(data)) && wrote == old(wrote) + n
        invariant n <= |part| && sent == s + part[..n] && Bytes() == b + part[..n]
        invariant !more && n < |part| ==> |Bytes()| == CAP || (!memory && n == 0)
        invariant more && n < |part| ==> n == 0 || |Bytes()| == CAP
        invariant n == 0 ==> data == old(data) && (!more ==> Stuck(|b|, data.Length, memory, |part|))
        invariant n > 0 ==> !Stuck(|b|, old(data.Length), memory, |part|)
        decreases more, |part| - n
      {
        HoldsCap(this);
        assert n == 0 ==> part[n..] == part && part[..n] == [];
        var k := Put(part[n..], memory);
        Taken(part, n, k);
        n := n + k;
        more := k > 0;
        PutFull(this);
      }
    }

    /** Each part in turn, until one does not go in. */
    method PutSome(parts: seq<seq<Byte>>, memory: nat -> bool) returns (done: nat)
      requires Holds()
      modifies this`data, this`len, this`readAt, this`wrote, this`sent, data
      ensures Holds() && (data == old(data) || fresh(data)) && wrote == old(wrote) + done
      ensures done <= |All(parts)| && Bytes() == old(Bytes()) + All(parts)[..done]
        && sent == old(sent) + All(parts)[..done]
      ensures Granted(parts, memory) ==>
        done == (if |All(parts)| < CAP - |old(Bytes())| then |All(parts)| else CAP - |old(Bytes())|)
      ensures done == 0 <==>
        All(parts) == [] || Stuck(|old(Bytes())|, old(data.Length), memory(First(parts)), FirstSize(parts))
      ensures done < |All(parts)| && |Bytes()| < CAP ==> Denied(parts, memory, done)
    {
      hide Holds, Bytes, All, Stuck, FirstSize, First, Denied, Granted;
      ghost var b, s := Bytes(), sent;
      FirstNone(parts);
      NotStuck(|b|, data.Length, memory(First(parts)));
      done := 0;
      NoParts(parts);
      HoldsCap(this);
      for i := 0 to |parts|
        invariant Holds() && (data == old(data) || fresh(data)) && wrote == old(wrote) + done
        invariant done <= |All(parts[..i])| && Bytes() == b + All(parts[..i])[..done]
          && sent == s + All(parts[..i])[..done]
        invariant done < |All(parts[..i])| ==> |Bytes()| == CAP
        invariant done == 0 ==> (forall j :: 0 <= j < i ==> parts[j] == []) && data == old(data) && Bytes() == b
        invariant done > 0 ==>
          FirstSize(parts) > 0 && !Stuck(|b|, old(data.Length), memory(First(parts)), FirstSize(parts))
      {
        if done == 0 { FirstIs(parts, i); }
        PartsNext(parts, i);
        PartsUpTo(parts, i + 1);
        HoldsCap(this);
        GrantedAt(parts, memory, i);
        var n := Write(parts[i], memory(i));
        HoldsCap(this);
        PrefixGrows(All(parts[..i]), parts[i], done, n);
        PrefixOf(parts, i + 1, done + n);
        assert n == 0 ==> parts[i][..n] == [];
        if parts[i] != [] && n == 0 {
          if |Bytes()| < CAP { DeniedAt(parts, memory, i); }
          return;
        }
        done := done + n;
      }
      assert parts[..|parts|] == parts;
      if done == 0 { FirstIs(parts, |parts|); }
      HoldsCap(this);
    }

    /**
     * Bytes of a stream pair, and the descriptors sent before the first of them. A read
     * stops at the place of the next descriptors.
     */
    method TakeStream(sizes: seq<nat>, ask: bool) returns (out: seq<Byte>, given: seq<nat>, released: seq<nat>)
      requires Valid() && !packets
      modifies this`readAt, this`len, this`taken, this`msgs
      ensures Valid() && batches == old(batches) && sent == old(sent)
      ensures |out| <= |old(Bytes())| && out == old(Bytes())[..|out|] && Bytes() == old(Bytes())[|out|..]
        && taken == old(taken) + |out|
      ensures |out| == Least(Sum(sizes), |old(Bytes())|, if msgs != [] then msgs[0].at - old(taken) else |old(Bytes())|)
      ensures if old(msgs) != [] && old(msgs)[0].at == old(taken)
        then msgs == old(msgs)[1..] && given == (if ask then old(msgs)[0].fds else [])
          && released == (if ask then [] else old(msgs)[0].fds)
        else msgs == old(msgs) && given == released == []
    {
      hide *;
      StreamParts(this);
      given, released := [], [];
      var avail := len - readAt;
      var limit, whole := avail, false;
      if msgs != [] {
        if msgs[0].at <= taken {
          whole := true;
          limit := if |msgs| > 1 then msgs[1].at - taken else avail;
        } else {
          limit := msgs[0].at - taken;
        }
      }
      limit := if limit < avail then limit else avail;
      ghost var t := taken;
      out := ReadInto(sizes, limit);
      LeastIs(Sum(sizes), avail, limit);
      InPlaceTaken(msgs, t, wrote, taken, whole);
      if whole {
        SuffixLess(batches, msgs);
        if ask {
          given := msgs[0].fds;
        } else {
          released := msgs[0].fds;
        }
        msgs := msgs[1..];
      }
      StreamValid(this);
    }
  }

  /** What one receive takes from the queue: the oldest message, a prefix of it in so much room. */
  ghost predicate Received(q: seq<Packet>, q': seq<Packet>, room: nat, ask: bool, out: seq<Byte>, cut: bool,
      given: seq<nat>, released: seq<nat>)
  {
    || (q == [] && q' == [] && out == [] && !cut && given == [] && released == [])
    || (&& q != [] && q' == q[1..] && |out| == (if |q[0].bytes| < room then |q[0].bytes| else room)
       && out == q[0].bytes[..|out|]
        && (cut <==> |q[0].bytes| > room) && given == (if ask then q[0].fds else [])
           && released == (if ask then [] else q[0].fds))
  }

  lemma {:induction false} NoneReceived(room: nat, ask: bool)
    ensures Received([], [], room, ask, [], false, [], [])
  {
  }

  lemma {:induction false} PacketParts(p: Pipe)
    requires p.Valid() && p.packets
    ensures p.Holds() && EndsWith(p.batches, p.msgs) && Size(p.msgs) == |p.Bytes()|
    ensures p.Queue() == Packets(p.Bytes(), p.msgs) && (p.msgs == [] ==> p.Queue() == [])
  {
    hide Pipe.Holds, Pipe.Bytes, Size;
  }

  lemma {:induction false} PacketsValid(p: Pipe)
    requires p.Holds() && EndsWith(p.batches, p.msgs) && Size(p.msgs) == |p.Bytes()| && p.packets
    ensures p.Valid() && p.Queue() == Packets(p.Bytes(), p.msgs)
  {
    hide Pipe.Holds, Pipe.Bytes, Size, Packets, EndsWith;
  }

  lemma {:induction false} StreamParts(p: Pipe)
    requires p.Valid() && !p.packets
    ensures p.Holds() && EndsWith(p.batches, p.msgs) && |p.Bytes()| == p.len - p.readAt
      && p.taken + |p.Bytes()| == p.wrote
    ensures p.msgs != [] ==> p.taken <= p.msgs[0].at
    ensures |p.msgs| > 1 ==> p.msgs[0].at <= p.msgs[1].at
    ensures InPlace(p.msgs, p.taken, p.wrote)
  {
  }

  lemma {:induction false} StreamValid(p: Pipe)
    requires p.Holds() && EndsWith(p.batches, p.msgs) && InPlace(p.msgs, p.taken, p.wrote) && !p.packets
    ensures p.Valid()
  {
    hide Pipe.Holds, EndsWith, InPlace;
  }

  /** Up to the first of the messages left, more may be taken. */
  lemma {:induction false} InPlaceTaken(msgs: seq<Message>, taken: nat, wrote: nat, taken': nat, drop: bool)
    requires InPlace(msgs, taken, wrote) && taken <= taken' && (drop ==> msgs != [])
    requires var rest := if drop then msgs[1..] else msgs; rest != [] ==> taken' <= rest[0].at
    ensures InPlace(if drop then msgs[1..] else msgs, taken', wrote)
  {
    var rest := if drop then msgs[1..] else msgs;
    assert forall i :: 0 <= i < |rest| ==> rest[i] == msgs[if drop then i + 1 else i];
  }

  lemma {:induction false} OneReceived(b: seq<Byte>, msgs: seq<Message>, room: nat, ask: bool, out: seq<Byte>,
      cut: bool, given: seq<nat>, released: seq<nat>)
    requires msgs != [] && |b| == Size(msgs) && msgs[0].len <= |b| && Size(msgs[1..]) == |b[msgs[0].len..]|
    requires |out| == (if msgs[0].len < room then msgs[0].len else room) && out == b[..|out|]
      && (cut <==> |out| < msgs[0].len)
    requires given == (if ask then msgs[0].fds else []) && released == (if ask then [] else msgs[0].fds)
    ensures Received(Packets(b, msgs), Packets(b[msgs[0].len..], msgs[1..]), room, ask, out, cut, given, released)
  {
    FirstPacket(b, msgs, |out|);
    hide Packets, Size;
  }

  lemma {:induction false} HoldsCap(p: Pipe)
    requires p.Holds()
    ensures |p.Bytes()| <= CAP
  {
  }

  lemma {:induction false} PutFull(p: Pipe)
    requires p.Holds()
    ensures |p.Bytes()| == p.len - p.readAt
  {
  }

  /** What has gone in of the parts so far, and of one more. */
  lemma {:induction false} PrefixGrows(a: seq<Byte>, b: seq<Byte>, done: nat, n: nat)
    requires done <= |a| && n <= |b|
    ensures done == |a| || n == 0 ==> (a + b)[..done + n] == a[..done] + b[..n]
  {
  }

  lemma {:induction false} PrefixOf(parts: seq<seq<Byte>>, i: nat, k: nat)
    requires i <= |parts| && k <= |All(parts[..i])|
    ensures k <= |All(parts)| && All(parts[..i])[..k] == All(parts)[..k]
    decreases |parts| - i
  {
    if i < |parts| {
      PartsNext(parts, i);
      PrefixOf(parts, i + 1, k);
    } else {
      assert parts[..i] == parts;
    }
  }

  function Least(a: nat, b: nat, c: int): (r: int)
  {
    var m := if a < b then a else b;
    if c < m then c else m
  }

  lemma {:induction false} LeastIs(a: nat, b: nat, c: nat)
    requires c <= b
    ensures Least(a, b, c) == if c < a then c else a
    ensures forall d {:trigger Least(a, b, d)} :: d >= b && c == b ==> Least(a, b, d) == Least(a, b, c)
  {
  }

  function Sum(sizes: seq<nat>): (n: nat)
  {
    if sizes == [] then 0 else Sum(sizes[..|sizes| - 1]) + sizes[|sizes| - 1]
  }

  lemma {:induction false} SumStart(sizes: seq<nat>)
    ensures Sum(sizes[..0]) == 0
  {
  }

  lemma {:induction false} SumNext(sizes: seq<nat>, i: nat)
    requires i < |sizes|
    ensures Sum(sizes[..i + 1]) == Sum(sizes[..i]) + sizes[i]
  {
    assert sizes[..i + 1][..i] == sizes[..i];
  }

  lemma {:induction false} SumEnd(sizes: seq<nat>, i: nat)
    requires i <= |sizes|
    ensures Sum(sizes[..i]) <= Sum(sizes) && (i == |sizes| ==> Sum(sizes[..i]) == Sum(sizes))
    decreases |sizes| - i
  {
    if i < |sizes| {
      SumNext(sizes, i);
      SumEnd(sizes, i + 1);
    } else {
      assert sizes[..i] == sizes;
    }
  }

  lemma {:induction false} Taken(b: seq<Byte>, n: nat, k: nat)
    requires n + k <= |b|
    ensures b[..n] + b[n..][..k] == b[..n + k] && b[n..][k..] == b[n + k..]
  {
  }

  lemma {:induction false} NoParts(parts: seq<seq<Byte>>)
    ensures All(parts[..0]) == []
  {
  }

  lemma {:induction false} Nothing(b: seq<Byte>, t: seq<Byte>, s: seq<Byte>)
    ensures b + s[..0] == b && t + s[..0] == t
  {
  }

  lemma {:induction false} SuffixMore(all: seq<Message>, msgs: seq<Message>, m: Message)
    requires EndsWith(all, msgs)
    ensures EndsWith(all + [m], msgs + [m])
  {
    var k := |all| - |msgs|;
    assert (all + [m])[k..] == all[k..] + [m];
  }

  lemma {:induction false} SuffixLess(all: seq<Message>, msgs: seq<Message>)
    requires EndsWith(all, msgs) && msgs != []
    ensures EndsWith(all, msgs[1..])
  {
    var k := |all| - |msgs|;
    assert all[k..][1..] == all[k + 1..];
  }

  lemma {:induction false} FirstLeft(b: seq<Byte>, msgs: seq<Message>)
    requires msgs != [] && |b| == Size(msgs)
    ensures msgs[0].len <= |b| && Size(msgs[1..]) == |b[msgs[0].len..]|
  {
  }

  lemma {:induction false} FirstPacket(b: seq<Byte>, msgs: seq<Message>, n: nat)
    requires msgs != [] && |b| == Size(msgs) && n <= msgs[0].len
    ensures var p := Packets(b, msgs); var l := msgs[0].len;
      && l <= |b| && Size(msgs[1..]) == |b[l..]| && p[0] == Packet(b[..l], msgs[0].fds)
         && p[1..] == Packets(b[l..], msgs[1..])
      && b[..n] == p[0].bytes[..n] && b[n..][l - n..] == b[l..]
  {
  }

  lemma {:induction false} PlacedMore(all: seq<Message>, msgs: seq<Message>, taken: nat, wrote: nat, fds: seq<nat>)
    requires EndsWith(all, msgs) && InPlace(msgs, taken, wrote) && taken <= wrote
    ensures var m := Message(wrote, 0, fds); EndsWith(all + [m], msgs + [m]) && InPlace(msgs + [m], taken, wrote)
  {
    SuffixMore(all, msgs, Message(wrote, 0, fds));
  }

  lemma {:induction false} WroteMore(msgs: seq<Message>, taken: nat, w: nat, w': nat)
    requires InPlace(msgs, taken, w) && w <= w'
    ensures InPlace(msgs, taken, w')
  {
  }
}
