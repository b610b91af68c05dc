/** Reading newline-terminated requests with a length cap from a buffered stream
  * whose fills may cut it anywhere. */
module LineReader {

  newtype Byte = b: int | 0 <= b < 256

  const NEWLINE: Byte := 10

  /** What one read gives: a line with its newline, the end of input, or a refusal. */
  datatype Outcome = Line(text: seq<Byte>) | Eof | TooLong | NotUtf8

  function Concat(fills: seq<seq<Byte>>): seq<Byte> {
    if fills == [] then [] else fills[0] + Concat(fills[1..])
  }

  /** A buffered reader: `fills` are the buffers the source will produce, none of
    * them empty, the first partly consumed. */
  class BufReader {
    var fills: seq<seq<Byte>>

    ghost predicate Valid() reads this { forall i :: 0 <= i < |fills| ==> fills[i] != [] }

    function Rest(): seq<Byte> reads this { Concat(fills) }

    constructor (fills: seq<seq<Byte>>)
      requires forall i :: 0 <= i < |fills| ==> fills[i] != []
      ensures Valid() && Rest() == Concat(fills)
    {
      this.fills := fills;
    }

    /** The bytes at hand; empty only at the end of input. */
    method FillBuf() returns (available: seq<Byte>)
      requires Valid()
      ensures available <= Rest()
      ensures available == [] <==> Rest() == []
      ensures fills != [] ==> available == fills[0]
    {
      available := if fills == [] then [] else fills[0];
    }

    method Consume(n: nat)
      requires Valid() && fills != [] && n <= |fills[0]|
      modifies this
      ensures Valid() && Rest() == old(Rest())[n..]
    {
      assert Rest()[n..] == fills[0][n..] + Concat(fills[1..]);
      if n == |fills[0]| {
        fills := fills[1..];
      } else {
        fills := [fills[0][n..]] + fills[1..];
        assert fills[1..] == old(fills)[1..];
      }
    }
  }

  /** The index of the first newline, or the length when there is none. */
  function Position(s: seq<Byte>): (i: nat)
    ensures i <= |s| && (i < |s| ==> s[i] == NEWLINE)
    ensures forall k :: 0 <= k < i ==> s[k] != NEWLINE
  {
    if s == [] || s[0] == NEWLINE then 0 else 1 + Position(s[1..])
  }

  /** The bytes of the first line, its newline included when it has one. */
  function FirstLine(s: seq<Byte>): seq<Byte> {
    if Position(s) < |s| then s[..Position(s) + 1] else s
  }

  /** The first outcome of a whole stream, whatever its fills. */
  function Next(s: seq<Byte>, max: nat, utf8: seq<Byte> -> bool): Outcome {
    if s == [] then Eof
    else if |FirstLine(s)| > max then TooLong
    else if utf8(FirstLine(s)) then Line(FirstLine(s))
    else NotUtf8
  }

  /** The outcomes of a whole stream, up to the first that is not a line. */
  function Split(s: seq<Byte>, max: nat, utf8: seq<Byte> -> bool): seq<Outcome>
    decreases |s|
  {
    var o := Next(s, max, utf8);
    if o.Line? then [o] + Split(s[|o.text|..], max, utf8) else [o]
  }

  ghost predicate NoNewline(s: seq<Byte>) { forall k :: 0 <= k < |s| ==> s[k] != NEWLINE }

  lemma PositionIs(s: seq<Byte>, i: nat)
    requires i <= |s| && (i < |s| ==> s[i] == NEWLINE)
    requires forall k :: 0 <= k < i ==> s[k] != NEWLINE
    ensures Position(s) == i
  {
  }

  /** The line ends in the fill at hand, at its byte `i`. */
  lemma LineEnds(buf: seq<Byte>, available: seq<Byte>, rest: seq<Byte>, i: nat)
    requires NoNewline(buf) && available <= rest
    requires i < |available| && available[i] == NEWLINE && forall k :: 0 <= k < i ==> available[k] != NEWLINE
    ensures FirstLine(buf + rest) == buf + available[..i + 1]
    ensures (buf + rest)[|buf| + i + 1..] == rest[i + 1..]
  {
    PositionIs(buf + rest, |buf| + i);
  }

  /** The line goes on past the fill at hand. */
  lemma LineGoesOn(buf: seq<Byte>, available: seq<Byte>, rest: seq<Byte>)
    requires NoNewline(buf) && available <= rest && NoNewline(available)
    ensures NoNewline(buf + available) && |FirstLine(buf + rest)| >= |buf| + |available|
    ensures buf + available + rest[|available|..] == buf + rest
  {
    var p := Position(buf + rest);
    assert p < |buf| + |available| ==> (buf + rest)[p] == (buf + available)[p];
  }

  /** One capped read. An accepted or badly encoded line is consumed to its last byte
    * and no further, however the stream was cut. */
  method ReadLineCapped(reader: BufReader, max: nat, utf8: seq<Byte> -> bool) returns (r: Outcome)
    requires reader.Valid()
    modifies reader
    ensures reader.Valid()
    ensures r == Next(old(reader.Rest()), max, utf8)
    ensures r.Line? || r.NotUtf8? ==> reader.Rest() == old(reader.Rest())[|FirstLine(old(reader.Rest()))|..]
    ensures r.Eof? ==> reader.Rest() == []
    ensures r.TooLong? ==> |reader.Rest()| + max < |old(reader.Rest())|
  {
    ghost var all := reader.Rest();
    var buf: seq<Byte> := [];
    while true
      invariant reader.Valid() && buf + reader.Rest() == all
      invariant |buf| <= max && NoNewline(buf)
      decreases |reader.Rest()|
    {
      ghost var rest := reader.Rest();
      var available := reader.FillBuf();
      if available == [] {
        PositionIs(buf, |buf|);
        assert all == buf == FirstLine(all);
        return if buf == [] then Eof else if utf8(buf) then Line(buf) else NotUtf8;
      }
      var i := Position(available);
      if i < |available| {
        LineEnds(buf, available, rest, i);
        reader.Consume(i + 1);
        if |buf| + i + 1 > max { return TooLong; }
        buf := buf + available[..i + 1];
        return if utf8(buf) then Line(buf) else NotUtf8;
      }
      LineGoesOn(buf, available, rest);
      var take := |available|;
      reader.Consume(take);
      if |buf| + take > max { return TooLong; }
      buf := buf + available;
    }
  }

  /** The connection loop reads until the end of input or the first refusal. */
  method ReadAll(reader: BufReader, max: nat, utf8: seq<Byte> -> bool) returns (outcomes: seq<Outcome>)
    requires reader.Valid()
    modifies reader
    ensures outcomes == Split(old(reader.Rest()), max, utf8)
  {
    ghost var whole := Split(reader.Rest(), max, utf8);
    outcomes := [];
    while true
      invariant reader.Valid()
      invariant whole == outcomes + Split(reader.Rest(), max, utf8)
      decreases |reader.Rest()|
    {
      SplitStep(reader.Rest(), max, utf8);
      ghost var seen := outcomes;
      var r := ReadLineCapped(reader, max, utf8);
      outcomes := outcomes + [r];
      if !r.Line? { return; }
      Shift(seen, r, Split(reader.Rest(), max, utf8));
    }
  }

  lemma Shift(seen: seq<Outcome>, r: Outcome, left: seq<Outcome>)
    ensures seen + ([r] + left) == seen + [r] + left
  {
  }

  lemma SplitStep(s: seq<Byte>, max: nat, utf8: seq<Byte> -> bool)
    ensures var o := Next(s, max, utf8);
            && (o.Line? ==> o.text == FirstLine(s) && o.text != [] && Split(s, max, utf8) == [o] + Split(s[|o.text|..], max, utf8))
            && (!o.Line? ==> Split(s, max, utf8) == [o])
  {
  }

  /** The text of the accepted lines. */
  function Joined(outcomes: seq<Outcome>): seq<Byte> {
    if outcomes == [] then []
    else (if outcomes[0].Line? then outcomes[0].text else []) + Joined(outcomes[1..])
  }

  ghost predicate GoodLine(text: seq<Byte>, max: nat, utf8: seq<Byte> -> bool) {
    0 < |text| <= max && utf8(text) && NoNewline(text[..|text| - 1])
  }

  /** `os` reads `s`: only its last outcome is not a line; the lines are good, lead
    * the stream, and make up all of it exactly when the last outcome is the end. */
  ghost predicate Reads(os: seq<Outcome>, s: seq<Byte>, max: nat, utf8: seq<Byte> -> bool) {
    && os != [] && Joined(os) <= s
    && (os[|os| - 1].Eof? <==> Joined(os) == s)
    && (forall n :: 0 <= n < |os| ==> (os[n].Line? <==> n < |os| - 1))
    && (forall n :: 0 <= n < |os| - 1 ==> GoodLine(os[n].text, max, utf8))
  }

  lemma ReadsMore(text: seq<Byte>, os: seq<Outcome>, s: seq<Byte>, max: nat, utf8: seq<Byte> -> bool)
    requires Reads(os, s, max, utf8) && GoodLine(text, max, utf8)
    ensures Reads([Line(text)] + os, text + s, max, utf8)
  {
    assert ([Line(text)] + os)[1..] == os;
  }

  /** Nothing is lost, added or reordered: the accepted lines, put together, are the
    * stream up to where reading stopped. */
  lemma {:induction false} SplitLosesNothing(s: seq<Byte>, max: nat, utf8: seq<Byte> -> bool)
    ensures Reads(Split(s, max, utf8), s, max, utf8)
    decreases |s|
  {
    var o := Next(s, max, utf8);
    SplitStep(s, max, utf8);
    if o.Line? {
      var rest := s[|o.text|..];
      SplitLosesNothing(rest, max, utf8);
      assert GoodLine(o.text, max, utf8) && s == o.text + rest;
      ReadsMore(o.text, Split(rest, max, utf8), rest, max, utf8);
    } else {
      assert Joined([o]) == [];
    }
  }
}
