// The queue of prompts typed while the worker is busy (ds4_agent.c:8515-8562): a growable
// array shifted in place, and the text that joins the whole queue, written through a
// buffer that stops at 128 KiB (ds4_agent.c:3565-3586).

module PromptQueue {
  import opened Bytes
  import opened TraceScanner
  import opened TraceRoundTrip

  const GAP: bytes := [LF, LF]
  const BUFFER_MAX: nat := 128 * 1024
  const QUEUED: bytes := Ascii("Queued user message ")
  const FIRST_CAPACITY: nat := 4

  /** The line that introduces message `i` (counted from 0) of a joined text. */
  function Heading(i: nat): bytes {
    QUEUED + Decimal(i + 1) + [0x3A, LF]
  }

  /** The joined text of the first `n` messages. */
  function Joined(q: seq<bytes>, n: nat): bytes
    requires n <= |q|
  {
    if n == 0 then []
    else Joined(q, n - 1) + (if n > 1 then GAP else []) + Heading(n - 1) + q[n - 1]
  }

  /** The first bytes of a text, as many as a text buffer holds. */
  function Cut(s: bytes): bytes {
    if |s| <= BUFFER_MAX then s else s[..BUFFER_MAX]
  }

  /** What `take_all` returns: nothing, the only message as it is, or all of them joined. */
  function AllText(q: seq<bytes>): Option<bytes> {
    if q == [] then None else if |q| == 1 then Some(q[0]) else Some(Cut(Joined(q, |q|)))
  }

  /** Where message `i` starts in a joined text. */
  function Offset(q: seq<bytes>, i: nat): nat
    requires i < |q|
  {
    |Joined(q, i + 1)| - |q[i]|
  }

  lemma {:induction false} JoinedGrows(q: seq<bytes>, m: nat, n: nat)
    requires m <= n <= |q|
    ensures Joined(q, m) <= Joined(q, n)
  {
    if m < n { JoinedGrows(q, m, n - 1); }
  }

  /**
   * A joined text carries every queued message byte for byte, each after its own
   * heading, in the order of the queue and without overlap.
   */
  lemma JoinedCarries(q: seq<bytes>, i: nat)
    requires |q| > 1 && i < |q|
    ensures var t := Joined(q, |q|); var at := Offset(q, i);
      && at + |q[i]| <= |t| && t[at..at + |q[i]|] == q[i]
      && |Heading(i)| <= at && t[at - |Heading(i)|..at] == Heading(i)
      && (i > 0 ==> Offset(q, i - 1) + |q[i - 1]| < at)
  {
    hide Heading;
    var t := Joined(q, |q|);
    var before := Joined(q, i) + (if i > 0 then GAP else []);
    var part := Joined(q, i + 1);
    assert part == before + Heading(i) + q[i];
    JoinedGrows(q, i + 1, |q|);
    var at := Offset(q, i);
    assert t[..|part|] == part;
    assert t[at..at + |q[i]|] == part[at..];
    assert t[at - |Heading(i)|..at] == part[|before|..at];
  }

  /** Message `i` stands whole at its place in a text. */
  predicate Carries(text: bytes, q: seq<bytes>, i: nat)
    requires i < |q|
  {
    Offset(q, i) + |q[i]| <= |text| && text[Offset(q, i)..Offset(q, i) + |q[i]|] == q[i]
  }

  /**
   * What the buffer loses: message `i` comes through whole exactly when it ends within
   * the first 128 KiB of the joined text, so all do exactly when that text fits.
   */
  lemma CutCarries(q: seq<bytes>, i: nat)
    requires |q| > 1 && i < |q|
    ensures Carries(AllText(q).value, q, i) <==> |Joined(q, i + 1)| <= BUFFER_MAX
    ensures |Joined(q, |q|)| <= BUFFER_MAX ==> Carries(AllText(q).value, q, i)
    ensures |Joined(q, |q|)| > BUFFER_MAX ==> !Carries(AllText(q).value, q, |q| - 1)
  {
    hide Heading, Joined, AllText, Carries;
    CarriesExactly(q, i);
    CarriesExactly(q, |q| - 1);
    JoinedGrows(q, i + 1, |q|);
  }

  lemma CarriesExactly(q: seq<bytes>, i: nat)
    requires |q| > 1 && i < |q|
    ensures Carries(AllText(q).value, q, i) <==> |Joined(q, i + 1)| <= BUFFER_MAX
  {
    hide Heading, Joined, Cut;
    JoinedCarries(q, i);
    CutKeeps(Joined(q, |q|), Offset(q, i), q[i]);
  }

  /** A part of a text survives the cut exactly when it ends within it. */
  lemma CutKeeps(t: bytes, at: nat, m: bytes)
    requires at + |m| <= |t| && t[at..at + |m|] == m
    ensures at + |m| <= |Cut(t)| && Cut(t)[at..at + |m|] == m <==> at + |m| <= BUFFER_MAX
  {
    var c := Cut(t);
    if at + |m| <= |c| { assert c[at..at + |m|] == t[at..at + |m|]; }
  }

  /** A text buffer that stops growing at its limit. */
  class TextBuffer {
    var text: bytes
    var truncated: bool

    /** The buffer holds what a text leaves in it. */
    ghost predicate Holds(all: bytes)
      reads this
    {
      text == Cut(all) && (truncated <==> |all| > BUFFER_MAX)
    }

    constructor ()
      ensures Holds([])
    {
      text, truncated := [], false;
    }

    /** `agent_buf_append`. */
    method Append(s: bytes, ghost all: bytes)
      requires Holds(all)
      modifies this
      ensures Holds(all + s)
    {
      if s == [] || truncated {
        if truncated { assert Cut(all + s) == Cut(all); } else { assert all + s == all; }
        return;
      }
      var n := |s|;
      if |text| + n > BUFFER_MAX {
        n := if BUFFER_MAX > |text| then BUFFER_MAX - |text| else 0;
        truncated := true;
      }
      assert all == Cut(all) && (all + s)[..|all| + n] == all + s[..n];
      text := text + s[..n];
    }
  }

  /** The queue: the first `len` cells of an array that doubles when it is full. */
  class Queue {
    var v: array<bytes>
    var len: nat

    ghost predicate Valid()
      reads this, v
    {
      len <= v.Length
    }

    ghost function Contents(): (q: seq<bytes>)
      requires Valid()
      reads this, v
      ensures |q| == len
    {
      v[..len]
    }

    constructor ()
      ensures Valid() && Contents() == [] && fresh(v)
    {
      v, len := new bytes[0], 0;
    }

    /** The growth of `push` and `push_front`: room for one more, and nothing lost. */
    method Reserve()
      requires Valid()
      modifies this
      ensures Valid() && len < v.Length && (v == old(v) || fresh(v)) && Contents() == old(Contents())
    {
      if len == v.Length {
        var cap := if v.Length > 0 then v.Length * 2 else FIRST_CAPACITY;
        var old_ := v;
        var grown := new bytes[cap](i requires 0 <= i < cap reads old_ => if i < old_.Length then old_[i] else []);
        assert grown[..len] == old_[..len];
        v := grown;
      }
    }

    /** `agent_prompt_queue_push`. */
    method Push(text: bytes)
      requires Valid()
      modifies this, v
      ensures Valid() && (v == old(v) || fresh(v)) && Contents() == old(Contents()) + [text]
    {
      Reserve();
      v[len] := text;
      len := len + 1;
    }

    /** `agent_prompt_queue_pop`: the cells behind the first move down by one. */
    method Pop() returns (text: Option<bytes>)
      requires Valid()
      modifies this, v
      ensures Valid() && v == old(v)
      ensures old(Contents()) == [] ==> text.None? && Contents() == []
      ensures old(Contents()) != [] ==> text.Some? && old(Contents()) == [text.value] + Contents()
    {
      if len == 0 { return None; }
      text := Some(v[0]);
      for i := 0 to len - 1
        invariant v == old(v) && len == old(len) <= v.Length
        invariant forall k :: 0 <= k < i ==> v[k] == old(v[k + 1])
        invariant forall k :: i <= k < len ==> v[k] == old(v[k])
      {
        v[i] := v[i + 1];
      }
      len := len - 1;
    }

    /** `agent_prompt_queue_push_front`: every cell moves up by one. */
    method PushFront(text: bytes)
      requires Valid()
      modifies this, v
      ensures Valid() && (v == old(v) || fresh(v)) && Contents() == [text] + old(Contents())
    {
      Reserve();
      ghost var before := Contents();
      var i := len;
      while i > 0
        invariant 0 <= i <= len < v.Length && len == |before|
        invariant v == old(v) || fresh(v)
        invariant forall k :: 0 <= k < i ==> v[k] == before[k]
        invariant forall k :: i < k <= len ==> v[k] == before[k - 1]
      {
        v[i] := v[i - 1];
        i := i - 1;
      }
      v[0] := text;
      len := len + 1;
    }

    /** `agent_prompt_queue_take_all`. */
    method TakeAll() returns (text: Option<bytes>)
      requires Valid()
      modifies this, v
      ensures Valid() && Contents() == [] && text == AllText(old(Contents()))
    {
      if len == 0 { return None; }
      if len == 1 {
        text := Pop();
        return;
      }
      ghost var q := Contents();
      var b := new TextBuffer();
      for i := 0 to len
        invariant v == old(v) && len == old(len) && Contents() == q && b.Holds(Joined(q, i))
      {
        ghost var all := Joined(q, i);
        if i > 0 {
          b.Append(GAP, all);
          all := all + GAP;
        } else {
          assert all + [] == all;
        }
        b.Append(Heading(i), all);
        b.Append(v[i], all + Heading(i));
      }
      len := 0;
      return Some(b.text);
    }
  }

  // ---------------------------------------------------------------- what is handed over

  /**
   * What is handed over for any queue: nothing exactly if it is empty; the only message by
   * itself; and of more each message behind its heading, as far as the buffer reaches.
   */
  lemma HandedOver(q: seq<bytes>)
    ensures AllText(q).None? <==> q == []
    ensures forall m :: q == [m] ==> AllText(q) == Some(m)
    ensures |q| > 1 ==> |AllText(q).value| <= BUFFER_MAX && forall i :: 0 <= i < |q| && |Joined(q, i + 1)| <= BUFFER_MAX ==>
              |Heading(i)| <= Offset(q, i) <= |AllText(q).value| && Carries(AllText(q).value, q, i)
              && AllText(q).value[Offset(q, i) - |Heading(i)|..Offset(q, i)] == Heading(i)
  {
    hide Heading, Joined, Carries;
    if |q| > 1 {
      forall i | 0 <= i < |q| && |Joined(q, i + 1)| <= BUFFER_MAX
        ensures |Heading(i)| <= Offset(q, i) <= |AllText(q).value| && Carries(AllText(q).value, q, i)
          && AllText(q).value[Offset(q, i) - |Heading(i)|..Offset(q, i)] == Heading(i)
      {
        CutCarries(q, i);
        JoinedCarries(q, i);
        CarriedInside(AllText(q).value, q, i);
        var t, c, at := Joined(q, |q|), AllText(q).value, Offset(q, i);
        assert c[at - |Heading(i)|..at] == t[at - |Heading(i)|..at];
      }
    }
  }

  lemma CarriedInside(text: bytes, q: seq<bytes>, i: nat)
    requires i < |q| && Carries(text, q, i)
    ensures Offset(q, i) <= |text|
  {
  }

  /** A heading is one line that holds the number of its message, counted from 1, as a reader of numbers finds it. */
  lemma HeadingTellsNumber(i: nat)
    requires i < ULL_MAX
    ensures var n := |QUEUED|; var h := Heading(i);
      && n < |h| && h[..n] == QUEUED && StrToULL(h[n..]) == Some(Number(i + 1, |h| - n - 2)) && h[|h| - 2..] == [0x3A, LF]
  {
    hide Decimal, StrToULL, QUEUED;
    var h := Heading(i);
    assert h[|QUEUED|..] == Decimal(i + 1) + [0x3A, LF];
    PrintedNumber(i + 1, [0x3A, LF]);
  }
}
