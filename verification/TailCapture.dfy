// The ring buffer that keeps the end of captured output (ds4_agent.c:1572-1624).

module TailCapture {
  import opened Bytes

  /** Cell `i` places after `start` in a ring of `cap` cells. */
  function Cell(start: nat, i: nat, cap: nat): (c: nat)
    requires start < cap && i <= cap
    ensures c < cap
  {
    if start + i < cap then start + i else start + i - cap
  }

  lemma CellIsMod(start: nat, i: nat, cap: nat)
    requires start < cap && i <= cap
    ensures (start + i) % cap == Cell(start, i, cap)
  {
  }

  lemma FullTurn(start: nat, cap: nat)
    requires start < cap
    ensures (start + cap) % cap == start
  {
  }

  /** The ring read from `start`. */
  function Unrolled(ring: bytes, start: nat, len: nat): bytes
    requires len <= |ring| && (len > 0 ==> start < |ring|)
  {
    seq(len, i requires 0 <= i < len => ring[Cell(start, i, |ring|)])
  }

  /** `memcpy` of `s` to `a + pos`. */
  method Copy(a: array<byte>, pos: nat, s: bytes)
    requires pos + |s| <= a.Length
    modifies a
    ensures forall i :: 0 <= i < a.Length ==> a[i] == if pos <= i < pos + |s| then s[i - pos] else old(a[i])
  {
    for k := 0 to |s|
      invariant forall i :: 0 <= i < a.Length ==> a[i] == if pos <= i < pos + k then s[i - pos] else old(a[i])
    {
      a[pos + k] := s[k];
    }
  }

  lemma EndOfNothing(s: bytes, n: nat)
    ensures |s| <= n ==> LastN(s + [], n) == s
    ensures n == 0 ==> LastN(s, n) == [] && forall t: bytes :: LastN(s + t, n) == []
  {
    assert s + [] == s;
  }

  lemma NothingUnrolled(ring: bytes, start: nat)
    ensures Unrolled(ring, start, 0) == []
  {
  }

  lemma SameTail(before: bytes, all: bytes, chunk: nat, cap: nat)
    requires |before| == cap && chunk <= |all| && chunk <= cap
    ensures LastN(before[chunk..] + all[..chunk] + all[chunk..], cap) == LastN(before + all, cap)
  {
    assert all == all[..chunk] + all[chunk..];
    assert before[chunk..] + all[..chunk] + all[chunk..] == (before + all)[chunk..];
  }

  /** New bytes in the place of the oldest ones. */
  lemma RingOverwritten(ring: bytes, next: bytes, start: nat, s: bytes, chunk: nat)
    requires |next| == |ring| && start + chunk <= |ring| && start < |ring| && chunk <= |s|
    requires forall i :: 0 <= i < |ring| ==> next[i] == if start <= i < start + chunk then s[i - start] else ring[i]
    ensures Unrolled(next, Cell(start, chunk, |ring|), |ring|) == Unrolled(ring, start, |ring|)[chunk..] + s[..chunk]
  {
    var cap := |ring|;
    var want := Unrolled(ring, start, cap)[chunk..] + s[..chunk];
    forall i | 0 <= i < cap ensures Unrolled(next, Cell(start, chunk, cap), cap)[i] == want[i] {
      assert Cell(Cell(start, chunk, cap), i, cap) == Cell(start, if chunk + i < cap then chunk + i else chunk + i - cap, cap);
    }
  }

  /** The ring is its part up to the end of the buffer and then its part from the start of it. */
  lemma RingIsTwoParts(ring: bytes, start: nat, len: nat)
    requires 0 < len <= |ring| && start < |ring|
    ensures var first := if len < |ring| - start then len else |ring| - start;
      Unrolled(ring, start, len) == ring[start..start + first] + ring[..len - first]
  {
  }

  class Capture {
    var buf: array?<byte>
    var cap: nat
    var start: nat
    var len: nat
    var total: nat

    ghost predicate Valid()
      reads this, buf
    {
      && (buf == null ==> len == 0 && start == 0)
      && (buf != null ==> buf.Length == cap > 0 && len <= cap && start < cap)
    }

    ghost function Contents(): bytes
      requires Valid()
      reads this, buf
    {
      if buf == null then [] else Unrolled(buf[..], start, len)
    }

    constructor (capacity: nat)
      ensures Valid() && cap == capacity && Contents() == [] && total == 0 && buf == null
    {
      buf, cap, start, len, total := null, capacity, 0, 0, 0;
    }

    /** Room left: the first bytes go behind the contents, around the end of the buffer if need be. */
    method Fill(s: bytes) returns (rest: bytes)
      requires Valid() && buf != null && len < cap
      modifies this, buf
      ensures Valid() && buf == old(buf) && cap == old(cap) && total == old(total)
      ensures var first := if |s| < cap - old(len) then |s| else cap - old(len);
        Contents() == old(Contents()) + s[..first] && rest == s[first..]
      ensures len == cap || rest == []
    {
      var freeTail := cap - len;
      var first := if |s| < freeTail then |s| else freeTail;
      var pos := (start + len) % cap;
      CellIsMod(start, len, cap);
      var right := cap - pos;
      var chunk := if first < right then first else right;
      Copy(buf, pos, s[..chunk]);
      if first > chunk { Copy(buf, 0, s[chunk..first]); }
      len := len + first;
      rest := s[first..];
      ghost var before := old(Contents());
      forall i | 0 <= i < len ensures Contents()[i] == (before + s[..first])[i] {
        assert Cell(start, i, cap) < cap;
      }
    }

    /** A full ring: new bytes overwrite the oldest ones. */
    method Overwrite(s: bytes) returns (rest: bytes)
      requires Valid() && buf != null && len == cap && 0 < |s| <= cap
      modifies this, buf
      ensures Valid() && buf == old(buf) && cap == old(cap) && total == old(total) && len == cap
      ensures exists chunk :: 0 < chunk <= |s| && Contents() == old(Contents())[chunk..] + s[..chunk] && rest == s[chunk..]
    {
      hide Unrolled, Cell;
      var pos := (start + len) % cap;
      FullTurn(start, cap);
      var right := cap - pos;
      var chunk := if |s| < right then |s| else right;
      Copy(buf, pos, s[..chunk]);
      CellIsMod(start, chunk, cap);
      start := (start + chunk) % cap;
      rest := s[chunk..];
      RingOverwritten(old(buf[..]), buf[..], pos, s, chunk);
    }

    /** The overwriting loop of `agent_tail_capture_append`. */
    method OverwriteAll(s: bytes)
      requires Valid() && buf != null && |s| < cap && (s != [] ==> len == cap)
      modifies this, buf
      ensures Valid() && buf == old(buf) && cap == old(cap) && total == old(total)
      ensures Contents() == LastN(old(Contents()) + s, cap)
    {
      ghost var want := LastN(Contents() + s, cap);
      var rest := s;
      while rest != []
        invariant Valid() && buf == old(buf) && cap == old(cap) && total == old(total) && |rest| < cap && (rest != [] ==> len == cap)
        invariant LastN(Contents() + rest, cap) == want
        decreases |rest|
      {
        ghost var before, all := Contents(), rest;
        rest := Overwrite(rest);
        ghost var chunk: nat :| 0 < chunk <= |all| && Contents() == before[chunk..] + all[..chunk] && rest == all[chunk..];
        SameTail(before, all, chunk, cap);
      }
      assert Contents() + [] == Contents();
    }

    /** A chunk of at least the capacity leaves only its own end. */
    method Replace(s: bytes)
      requires Valid() && buf != null && |s| >= cap
      modifies this, buf
      ensures Valid() && buf == old(buf) && cap == old(cap) && total == old(total)
      ensures Contents() == LastN(old(Contents()) + s, cap)
    {
      Copy(buf, 0, s[|s| - cap..]);
      start, len := 0, cap;
      assert Contents() == s[|s| - cap..];
    }

    /** `agent_tail_capture_append`. */
    method Append(s: bytes)
      requires Valid()
      modifies this, buf
      ensures Valid() && cap == old(cap) && (buf == old(buf) || fresh(buf))
      ensures Contents() == LastN(old(Contents()) + s, cap)
      ensures total == if cap == 0 then old(total) else old(total) + |s|
    {
      hide LastN;
      EndOfNothing(Contents(), cap);
      if s == [] || cap == 0 {
        assert old(Contents()) + [] == old(Contents());
        return;
      }
      if buf == null { buf := new byte[cap]; }
      assert Contents() == old(Contents()) by { NothingUnrolled(buf[..], start); }
      total := total + |s|;
      if |s| >= cap {
        Replace(s);
        return;
      }
      var rest := s;
      if len < cap {
        rest := Fill(s);
        assert Contents() + rest == old(Contents()) + s;
      }
      OverwriteAll(rest);
    }

    /** `agent_tail_capture_take`: the contents in order; the capture is cleared, its capacity too. */
    method Take() returns (out: bytes)
      requires Valid()
      modifies this
      ensures Valid() && out == old(Contents()) && cap == 0 && total == 0 && Contents() == []
    {
      hide Unrolled, Cell;
      out := [];
      if buf != null { NothingUnrolled(buf[..], start); }
      if len > 0 {
        var right := cap - start;
        var first := if len < right then len else right;
        out := buf[start..start + first];
        if len > first { out := out + buf[..len - first]; }
        assert out == buf[start..start + first] + buf[..len - first];
        ghost var ring := buf[..];
        RingIsTwoParts(ring, start, len);
        assert buf[start..start + first] == ring[start..start + first];
        assert buf[..len - first] == ring[..len - first];
      }
      buf, cap, start, len, total := null, 0, 0, 0, 0;
    }
  }

  // ---------------------------------------------------------------- meaning

  /** The contents after a run of appends, one step at a time. */
  function AfterAppends(contents: bytes, chunks: seq<bytes>, cap: nat): bytes
    decreases |chunks|
  {
    if chunks == [] then contents else AfterAppends(LastN(contents + chunks[0], cap), chunks[1..], cap)
  }

  /** Appends of any sizes leave the last `cap` bytes of everything appended. */
  lemma {:induction false} AppendsKeepTheTail(contents: bytes, chunks: seq<bytes>, cap: nat)
    requires |contents| <= cap
    ensures AfterAppends(contents, chunks, cap) == LastN(contents + Concat(chunks), cap)
    decreases |chunks|
  {
    if chunks == [] {
      assert contents + Concat(chunks) == contents;
    } else {
      var next := LastN(contents + chunks[0], cap);
      AppendsKeepTheTail(next, chunks[1..], cap);
      var more := Concat(chunks[1..]);
      Associative(contents, chunks[0], more);
      LastOfLast(contents + chunks[0], more, cap);
    }
  }

  lemma LastOfLast(a: bytes, b: bytes, n: nat)
    ensures LastN(LastN(a, n) + b, n) == LastN(a + b, n)
  {
  }
}
