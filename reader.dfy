/**
 * The character reader of mewa.c: a cursor over a page buffer with a
 * one-character pushback flag, a token mark, row and column counters and
 * the end-of-file (`eof`), end-of-stream (`eos`) and end-of-initialisation
 * (`eoi`, set once the first page is loaded) flags.
 *
 * Two modes exist.  In memory (`src == NULL`) the page is the whole input
 * and `len` is its length (or SIZE_MAX, when only the terminating NUL ends
 * the input).  With a stream, `fread` refills the page buffer with the
 * next `cap` characters of the input, which the model holds as `rest`.
 *
 * `RdState` is the reader as a value and the `Rd*` functions are the
 * operations on it; the class `Reader` below has the same fields and
 * methods proved equal to those functions.
 */
module Reading {
  import opened Util

  datatype RdState = RdState(
    data: seq<char>,   // page.data; with a stream, the whole buffer of page.cap characters
    len: nat,          // page.len
    hasSrc: bool,      // src != NULL
    rest: seq<char>,   // what the stream has yet to deliver
    ptr: nat,
    row: int,
    col: int,
    mrk: int,
    cc: char,
    prv: bool,
    eof: bool,
    eos: bool,
    eoi: bool)

  /** page.data[i]; a read past the buffer, undefined in C, gives NUL. */
  function CharAt(data: seq<char>, i: nat): char {
    if i < |data| then data[i] else '\0'
  }

  /** rd_reset_counters. */
  function RdResetCounters(s: RdState): (t: RdState)
    ensures t.ptr == 0 && t.mrk == 0 && t.row == 0 && t.col == 0
    ensures !t.eof && !t.eos && !t.eoi && !t.prv
    ensures t.data == s.data && t.len == s.len && t.hasSrc == s.hasSrc && t.rest == s.rest && t.cc == s.cc
  {
    s.(ptr := 0, mrk := 0, row := 0, col := 0, eof := false, eos := false, eoi := false, prv := false)
  }

  /** rd_prev: push the current character back unless the reader is still at the mark. */
  function RdPrev(s: RdState): RdState {
    s.(prv := s.mrk == -1 || s.mrk != s.ptr)
  }

  /** The number of characters fread delivers into a buffer of `cap` characters. */
  function FreadCount(cap: nat, rest: seq<char>): (n: nat)
    ensures n <= cap && n <= |rest|
    ensures n < cap ==> n == |rest|
  {
    if |rest| < cap then |rest| else cap
  }

  /** rd_next_page; with a stream, the buffer gets the next characters (a read error is not modelled). */
  function RdNextPage(s: RdState): RdState {
    var s1 := s.(ptr := 0, mrk := -1);
    if !s.hasSrc then s1.(eos := s.eoi, eof := s.eoi)
    else
      var n := FreadCount(|s.data|, s.rest);
      var s2 := s1.(data := s.rest[..n] + s.data[n..], rest := s.rest[n..], len := n,
                    eof := n < |s.data|, eos := n == 0);
      if n == 0 then s2.(cc := '\0') else s2
  }

  /** Whether the advance past `ptr` leaves the page (or comes before the first page). */
  predicate LeavesPage(s: RdState) {
    s.ptr + 1 >= s.len || (!s.hasSrc && !s.eoi)
  }

  /** Whether leaving the page ends the input. */
  predicate AtLastPage(s: RdState) {
    s.eof || (!s.hasSrc && s.eoi)
  }

  /** The row and column after leaving the character at `ptr`. */
  function Advanced(s: RdState): RdState {
    var nl := CharAt(s.data, s.ptr) == '\n';
    s.(col := if nl then 0 else s.col + 1, row := if nl then s.row + 1 else s.row, ptr := s.ptr + 1)
  }

  /**
   * rd_next_char as written.  When a refill finds the stream exhausted,
   * rd_next_page sets `eos` and `cc = '\0'`, but the final assignment then
   * overwrites `cc` with the stale first character of the buffer.
   */
  function RdNextCharAsWritten(s: RdState): RdState {
    if s.prv then s.(prv := false)
    else
      var s1 := Advanced(s);
      if LeavesPage(s) then
        if AtLastPage(s) then s1.(eos := true, cc := '\0')
        else
          var s2 := RdNextPage(s1).(eoi := true);
          s2.(cc := CharAt(s2.data, s2.ptr))
      else s1.(cc := CharAt(s1.data, s1.ptr))
  }

  /**
   * rd_next_char, with the refill fixed to keep the `cc = '\0'` that
   * rd_next_page sets at the end of the stream.  Every other path is the
   * code as written.
   */
  function RdNextChar(s: RdState): RdState {
    if s.prv then s.(prv := false)
    else
      var s1 := Advanced(s);
      if LeavesPage(s) then
        if AtLastPage(s) then s1.(eos := true, cc := '\0')
        else
          var s2 := RdNextPage(s1).(eoi := true);
          if s2.eos then s2 else s2.(cc := CharAt(s2.data, s2.ptr))
      else s1.(cc := CharAt(s1.data, s1.ptr))
  }

  /** One more character copied by fread. */
  lemma CopyStep(r: seq<char>, o: seq<char>, k: nat)
    requires k < |r| && k < |o|
    ensures (r[..k] + o[k..])[k := r[k]] == r[..k + 1] + o[k + 1..]
  {
    assert (r[..k] + o[k..])[k := r[k]] == r[..k] + [r[k]] + o[k + 1..];
    assert r[..k + 1] == r[..k] + [r[k]];
  }

  /** The part of rd_next_char after the cursor has left the page. */
  function PageEnd(s1: RdState): RdState {
    if AtLastPage(s1) then s1.(eos := true, cc := '\0')
    else
      var s2 := RdNextPage(s1).(eoi := true);
      if s2.eos then s2 else s2.(cc := CharAt(s2.data, s2.ptr))
  }

  /** rd_next_char in its three cases. */
  lemma NextCharCases(s: RdState)
    ensures !s.prv && LeavesPage(s) ==> RdNextChar(s) == PageEnd(Advanced(s))
    ensures !s.prv && !LeavesPage(s) ==> RdNextChar(s) == Advanced(s).(cc := CharAt(s.data, s.ptr + 1))
    ensures s.prv ==> RdNextChar(s) == s.(prv := false)
  {
  }

  /**
   * The states the reader can be in between calls: a stream buffer holds
   * at least one character; before the first page the cursor is at 0 and no
   * end flag is set; inside the input `cc` is the character under the
   * cursor; at the end of the input the cursor is past the page and `cc` is
   * NUL; the mark is never ahead of the cursor.
   */
  predicate Valid(s: RdState) {
    && (s.hasSrc ==> 1 <= |s.data| && s.len <= |s.data|)
    && (!s.eoi ==> s.ptr == 0 && !s.eof && !s.eos && (s.hasSrc ==> s.len == 0))
    && (s.eoi && !s.eos ==> s.cc == CharAt(s.data, s.ptr))
    && (s.eos ==> s.ptr >= s.len && s.cc == '\0')
    && -1 <= s.mrk <= s.ptr
  }

  /** The characters of the current page still ahead of the cursor. */
  function Dist(s: RdState): nat {
    var b := if s.len < |s.data| then s.len else |s.data|;
    if s.ptr < b then b - s.ptr else 0
  }

  /** A measure no rd_next_char increases and every one that consumes a character decreases. */
  function Rank(s: RdState): nat {
    4 * (2 * |s.rest| + (if s.eof then 0 else 1) + (if s.eoi then 0 else 1) + Dist(s))
    + (if s.cc != '\0' then 2 else 0) + (if s.prv then 1 else 0)
  }

  /** The mark lies behind the cursor, or was dropped by a page change. */
  predicate Moved(s: RdState) {
    s.mrk == -1 || s.mrk < s.ptr
  }

  /** rd_reset_counters on a buffer no stream read has filled yet starts a valid reader. */
  lemma ResetIsValid(s: RdState)
    requires s.hasSrc ==> 1 <= |s.data| && s.len == 0
    ensures Valid(RdResetCounters(s))
  {
  }

  /** The effect of a refill that does not end the input, given the reader's invariant. */
  lemma RefillRank(s: RdState)
    requires Valid(s) && !s.prv && LeavesPage(s) && !AtLastPage(s)
    ensures Valid(RdNextChar(s))
    ensures Rank(RdNextChar(s)) + 2 <= Rank(s)
  {
    var s1 := Advanced(s);
    var s2 := RdNextPage(s1).(eoi := true);
    if s.hasSrc {
      var n := FreadCount(|s.data|, s.rest);
      assert |s2.data| == |s.data|;
      assert |s2.rest| == |s.rest| - n;
      assert Dist(s2) <= n;
    } else {
      assert s.ptr == 0;
      assert Dist(s2) == Dist(s);
    }
  }

  /** The reader's invariant survives rd_next_char, which never increases Rank. */
  lemma NextCharRank(s: RdState)
    requires Valid(s)
    ensures Valid(RdNextChar(s)) && !RdNextChar(s).prv
    ensures Rank(RdNextChar(s)) <= Rank(s)
    ensures s.prv ==> Rank(RdNextChar(s)) + 1 == Rank(s)
    ensures !s.prv && s.cc != '\0' ==> Rank(RdNextChar(s)) + 2 <= Rank(s)
    ensures !s.prv ==> Moved(RdNextChar(s))
  {
    if !s.prv {
      if LeavesPage(s) {
        if !AtLastPage(s) {
          RefillRank(s);
        }
      } else {
        var t := RdNextChar(s);
        assert s.eoi && !s.eos;
        assert Dist(t) + 1 <= Dist(s) || s.ptr >= |s.data|;
      }
    }
  }

  /** rd_prev costs at most one unit of Rank and keeps the invariant. */
  lemma PrevRank(s: RdState)
    requires Valid(s)
    ensures Valid(RdPrev(s)) && Rank(RdPrev(s)) <= Rank(s) + 1
  {
  }

  /** Once the cursor has left the mark, rd_prev always pushes the character back. */
  lemma PrevAfterMove(s: RdState)
    requires Moved(s)
    ensures RdPrev(s).prv
  {
  }

  /** Pushing back and reading again re-delivers the same character and changes nothing else. */
  lemma PushbackRoundTrip(s: RdState)
    requires !s.prv && Moved(s)
    ensures RdNextChar(RdPrev(s)) == s
  {
  }

  /** With `prv` set, rd_next_char only clears it. */
  lemma NextCharAfterPushback(s: RdState)
    requires s.prv
    ensures RdNextChar(s) == s.(prv := false)
  {
  }

  /**
   * Without pushback, rd_next_char leaves the character under the cursor:
   * the column grows by one, or a `'\n'` resets it to 0 and increments the
   * row; within the page the cursor moves on by one and `cc` is the next
   * character.
   */
  lemma NextCharCounters(s: RdState)
    requires !s.prv
    ensures var t := RdNextChar(s);
      && (CharAt(s.data, s.ptr) == '\n' ==> t.row == s.row + 1 && t.col == 0)
      && (CharAt(s.data, s.ptr) != '\n' ==> t.row == s.row && t.col == s.col + 1)
      && (!LeavesPage(s) ==> t.ptr == s.ptr + 1 && t.cc == CharAt(s.data, s.ptr + 1) && !t.prv)
  {
  }

  /** In memory, stepping onto `len` ends the stream: `eos` is set and `cc` is NUL. */
  lemma InMemoryEnd(s: RdState)
    requires !s.hasSrc && s.eoi && !s.prv && s.ptr + 1 >= s.len
    ensures RdNextChar(s).eos && RdNextChar(s).cc == '\0'
  {
  }

  /** The corrected rd_next_char never reports the end of the stream with a character in `cc`. */
  lemma EndOfStreamIsNul(s: RdState)
    requires Valid(s)
    ensures RdNextChar(s).eos ==> RdNextChar(s).cc == '\0'
  {
    NextCharRank(s);
  }

  /**
   * As written, a stream whose length is a nonzero multiple of the buffer
   * size delivers its first character of the last page a second time: the
   * four characters "1234" through a four-character buffer read as "12341".
   */
  lemma StaleCharAtStreamEnd()
    ensures var s := RdState(['1', '2', '3', '4'], 4, true, [], 3, 0, 3, 0, '4', false, false, false, true);
      && Valid(s)
      && RdNextCharAsWritten(s).eos && RdNextCharAsWritten(s).cc == '1'
      && RdNextChar(s).eos && RdNextChar(s).cc == '\0'
  {
    var s := RdState(['1', '2', '3', '4'], 4, true, [], 3, 0, 3, 0, '4', false, false, false, true);
    assert FreadCount(4, []) == 0;
    assert ['1', '2', '3', '4'][..0] + ['1', '2', '3', '4'][0..] == ['1', '2', '3', '4'];
  }

  /** rd_skip_whitespaces. */
  function RdSkipWhitespaces(s: RdState): (t: RdState)
    requires Valid(s)
    ensures Valid(t) && !IsWhitespace(t.cc) && Rank(t) <= Rank(s)
    ensures !s.prv ==> !t.prv
    ensures !IsWhitespace(s.cc) ==> t == s
    decreases Rank(s)
  {
    if IsWhitespace(s.cc) then
      NextCharRank(s);
      RdSkipWhitespaces(RdNextChar(s))
    else s
  }

  /** rd_skip_line: stops at the end of the input or at a newline. */
  function RdSkipLine(s: RdState): (t: RdState)
    requires Valid(s)
    ensures Valid(t) && (t.cc == '\0' || t.cc == '\n') && Rank(t) <= Rank(s)
    ensures s.cc == '\0' || s.cc == '\n' ==> t == s
    decreases Rank(s)
  {
    if s.cc != '\0' && s.cc != '\n' then
      NextCharRank(s);
      RdSkipLine(RdNextChar(s))
    else s
  }

  /** The reader as the mutable struct the lexer owns. */
  class Reader {
    const buf: array<char>
    var len: nat
    const hasSrc: bool
    var rest: seq<char>
    var ptr: nat
    var row: int
    var col: int
    var mrk: int
    var cc: char
    var prv: bool
    var eof: bool
    var eos: bool
    var eoi: bool

    function State(): RdState
      reads this, buf
    {
      RdState(buf[..], len, hasSrc, rest, ptr, row, col, mrk, cc, prv, eof, eos, eoi)
    }

    /**
     * A zero-initialised reader over `page`: in memory when `stream` is
     * None, otherwise over a buffer the stream has not filled yet.
     */
    constructor (page: array<char>, len: nat, stream: Option<seq<char>>)
      ensures State() == RdState(page[..], len, stream.Some?, if stream.Some? then stream.value else [],
                                 0, 0, 0, 0, '\0', false, false, false, false)
      ensures buf == page
    {
      buf := page;
      this.len := len;
      hasSrc := stream.Some?;
      rest := if stream.Some? then stream.value else [];
      ptr, row, col, mrk := 0, 0, 0, 0;
      cc := '\0';
      prv, eof, eos, eoi := false, false, false, false;
    }

    method ResetCounters()
      modifies this
      ensures State() == RdResetCounters(old(State()))
    {
      ptr, mrk := 0, 0;
      row, col := 0, 0;
      eof, eos := false, false;
      eoi := false;
      prv := false;
    }

    method Prev()
      modifies this
      ensures State() == RdPrev(old(State()))
    {
      prv := mrk == -1 || mrk != ptr;
    }

    method NextPage()
      modifies this, buf
      ensures State() == RdNextPage(old(State()))
    {
      ptr := 0;
      mrk := -1;
      if !hasSrc {
        eos := eoi;
        eof := eoi;
        return;
      }
      var n := Fread();
      rest := rest[n..];
      len := n;
      eof := len < buf.Length;
      eos := len == 0;
      if eos {
        cc := '\0';
      }
    }

    /** fread of up to a page of characters from the stream into the buffer. */
    method Fread() returns (n: nat)
      modifies buf
      ensures n == FreadCount(buf.Length, rest)
      ensures buf[..] == rest[..n] + old(buf[..])[n..]
    {
      n := FreadCount(buf.Length, rest);
      var k := 0;
      while k < n
        invariant 0 <= k <= n && n <= |rest| && n <= buf.Length
        invariant buf[..] == rest[..k] + old(buf[..])[k..]
      {
        ghost var before := buf[..];
        buf[k] := rest[k];
        assert buf[..] == before[k := rest[k]];
        CopyStep(rest, old(buf[..]), k);
        k := k + 1;
      }
    }

    method NextChar()
      modifies this, buf
      ensures State() == RdNextChar(old(State()))
    {
      if prv {
        prv := false;
        return;
      }
      NextCharCases(State());
      Advance();
      if ptr >= len || (!hasSrc && !eoi) {
        LeavePage();
        return;
      }
      cc := CharAt(buf[..], ptr);
    }

    /** The first part of rd_next_char: count the character left and step the cursor. */
    method Advance()
      modifies this
      ensures State() == Advanced(old(State()))
    {
      col := col + 1;
      if CharAt(buf[..], ptr) == '\n' {
        col := 0;
        row := row + 1;
      }
      ptr := ptr + 1;
    }

    /** The end-of-page branch of rd_next_char. */
    method LeavePage()
      modifies this, buf
      ensures State() == PageEnd(old(State()))
    {
      if eof || (!hasSrc && eoi) {
        eos := true;
        cc := '\0';
        return;
      }
      NextPage();
      eoi := true;
      if eos {
        return;
      }
      cc := CharAt(buf[..], ptr);
    }

    method SkipWhitespaces()
      requires Valid(State())
      modifies this, buf
      ensures State() == RdSkipWhitespaces(old(State()))
    {
      while IsWhitespace(cc)
        invariant Valid(State())
        invariant RdSkipWhitespaces(State()) == RdSkipWhitespaces(old(State()))
        decreases Rank(State())
      {
        NextCharRank(State());
        NextChar();
      }
    }

    method SkipLine()
      requires Valid(State())
      modifies this, buf
      ensures State() == RdSkipLine(old(State()))
    {
      while cc != '\0' && cc != '\n'
        invariant Valid(State())
        invariant RdSkipLine(State()) == RdSkipLine(old(State()))
        decreases Rank(State())
      {
        NextCharRank(State());
        NextChar();
      }
    }
  }
}
