/** The port list of the network scanner's port scan: the text typed in the
    "Port Range" box is either `a-b`, a comma-separated list, or one port,
    and the "Common Ports" button fills the box with the comma-joined list of
    the fifteen well-known ports. */
module PortRange {
  import opened Text

  /** The ways `port_scan` fails while reading the port text; either one is
      reported to the window as a port-scan error. */
  datatype PortError =
    | WrongPieceCount   // `a, b = ...split('-')` did not find exactly two pieces
    | NotANumber        // one piece is not an integer literal

  /** The ports the "Common Ports" button proposes. */
  const CommonPorts: seq<nat> := [21, 22, 23, 25, 53, 80, 110, 143, 443, 993, 995, 1723, 3389, 5900, 8080]

  /** `range(lo, hi)`. */
  function Range(lo: int, hi: int): (r: seq<int>)
    ensures |r| == if lo < hi then hi - lo else 0
    ensures forall i :: 0 <= i < |r| ==> r[i] == lo + i
    decreases hi - lo
  {
    if lo < hi then [lo] + Range(lo + 1, hi) else []
  }

  /** Each piece of a comma list, stripped and read with `int()`; the first
      piece that is not a number fails the whole list. */
  function ParsePieces(pieces: seq<string>): (r: Result<seq<int>, PortError>)
    ensures r.Ok? ==> |r.value| == |pieces|
  {
    if pieces == [] then Ok([])
    else
      match ParseInt(Strip(pieces[0]))
      case None => Err(NotANumber)
      case Some(p) =>
        match ParsePieces(pieces[1..])
        case Err(e) => Err(e)
        case Ok(ps) => Ok([p] + ps)
  }

  /** `a, b = map(int, parts)`: the pieces are read lazily, so `int()`
      runs on the first piece, then the second, then, looking for a value
      too many, the third; the first `int()` that fails is the error, and a
      third piece that parses reports the wrong number of pieces. */
  function UnpackTwo(parts: seq<string>): (r: Result<(int, int), PortError>)
    ensures r.Ok? <==> |parts| == 2 && ParseInt(parts[0]).Some? && ParseInt(parts[1]).Some?
    ensures r.Ok? ==> r.value == (ParseInt(parts[0]).value, ParseInt(parts[1]).value)
    ensures r == Err(NotANumber) <==>
      exists i :: 0 <= i < |parts| && i < 3 && ParseInt(parts[i]).None? && forall j :: 0 <= j < i ==> ParseInt(parts[j]).Some?
  {
    if |parts| == 0 then Err(WrongPieceCount)
    else match ParseInt(parts[0])
    case None => Err(NotANumber)
    case Some(a) =>
      if |parts| == 1 then Err(WrongPieceCount)
      else match ParseInt(parts[1])
      case None => Err(NotANumber)
      case Some(b) =>
        if |parts| == 2 then Ok((a, b))
        else match ParseInt(parts[2])
        case None => Err(NotANumber)
        case Some(_) => Err(WrongPieceCount)
  }

  /** The port list `port_scan` derives from the text of the port box. */
  function ParsePorts(text: string): (r: Result<seq<int>, PortError>)
    ensures '-' in text ==>
      (r.Ok? <==> (|Split(text, '-')| == 2 && ParseInt(Split(text, '-')[0]).Some? && ParseInt(Split(text, '-')[1]).Some?))
    ensures '-' in text && r.Ok? ==>
      var a := ParseInt(Split(text, '-')[0]).value;
      var b := ParseInt(Split(text, '-')[1]).value;
      |r.value| == (if a <= b then b - a + 1 else 0) && forall i :: 0 <= i < |r.value| ==> r.value[i] == a + i
    ensures '-' !in text && ',' in text ==>
      (r.Ok? <==> forall i :: 0 <= i < |Split(text, ',')| ==> ParseInt(Strip(Split(text, ',')[i])).Some?)
    ensures '-' !in text && ',' in text && r.Ok? ==>
      |r.value| == |Split(text, ',')| &&
      forall i :: 0 <= i < |r.value| ==> r.value[i] == ParseInt(Strip(Split(text, ',')[i])).value
    ensures '-' !in text && ',' !in text ==>
      (r.Ok? <==> ParseInt(text).Some?) && (r.Ok? ==> r.value == [ParseInt(text).value])
  {
    ParsePiecesSpec(Split(text, ','));
    if '-' in text then
      match UnpackTwo(Split(text, '-'))
      case Ok((a, b)) => Ok(Range(a, b + 1))
      case Err(e) => Err(e)
    else if ',' in text then
      assert ParsePieces(Split(text, ',')).Ok? <==>
        forall i :: 0 <= i < |Split(text, ',')| ==> ParseInt(Strip(Split(text, ',')[i])).Some?;
      ParsePieces(Split(text, ','))
    else
      match ParseInt(text)
      case Some(p) => Ok([p])
      case None => Err(NotANumber)
  }

  /** What the "Common Ports" button writes into the port box. */
  function CommonPortsText(): (r: string)
    ensures r != [] && '-' !in r
    ensures forall k :: 0 <= k < |r| ==> IsDigit(r[k]) || r[k] == ','
  {
    PortsText(CommonPorts)
  }

  /** A list of ports written in decimal and joined with ','. */
  function PortsText(xs: seq<nat>): (r: string)
    requires |xs| >= 1
    ensures r != [] && '-' !in r
    ensures forall k :: 0 <= k < |r| ==> IsDigit(r[k]) || r[k] == ','
  {
    JoinDecimalChars(xs);
    assert Join(DecimalAll(xs), ",")[0] == DecimalAll(xs)[0][0];
    Join(DecimalAll(xs), ",")
  }

  // ------------------------------------------------------------ properties

  /** The comma-list branch succeeds exactly when every piece is a number, and
      then yields those numbers in order, duplicates included. */
  lemma {:induction false} ParsePiecesSpec(pieces: seq<string>)
    ensures ParsePieces(pieces).Ok? <==> forall i :: 0 <= i < |pieces| ==> ParseInt(Strip(pieces[i])).Some?
    ensures ParsePieces(pieces).Ok? ==>
      forall i :: 0 <= i < |pieces| ==> ParsePieces(pieces).value[i] == ParseInt(Strip(pieces[i])).value
  {
    if pieces != [] {
      var head := ParseInt(Strip(pieces[0]));
      var tail := pieces[1..];
      ParsePiecesSpec(tail);
      if head.Some? && ParsePieces(tail).Ok? {
        var r := ParsePieces(pieces).value;
        assert r == [head.value] + ParsePieces(tail).value;
        forall i | 0 <= i < |pieces|
          ensures ParseInt(Strip(pieces[i])).Some? && r[i] == ParseInt(Strip(pieces[i])).value
        {
          if i > 0 { assert pieces[i] == tail[i - 1]; }
        }
      } else if head.Some? {
        var j :| 0 <= j < |tail| && ParseInt(Strip(tail[j])).None?;
        assert pieces[j + 1] == tail[j];
      }
    }
  }

  /** `a-b` yields the ports a, a+1, ..., b, and nothing when a > b. */
  lemma DashForm(lo: string, hi: string, a: int, b: int)
    requires '-' !in lo && '-' !in hi
    requires ParseInt(lo) == Some(a) && ParseInt(hi) == Some(b)
    ensures ParsePorts(lo + "-" + hi) == Ok(Range(a, b + 1))
    ensures a > b ==> ParsePorts(lo + "-" + hi) == Ok([])
    ensures a <= b ==> |ParsePorts(lo + "-" + hi).value| == b - a + 1
  {
    var text := lo + "-" + hi;
    assert '-' in text by { assert text[|lo|] == '-'; }
    SplitAfterPiece(lo, '-', hi);
    SplitWithoutSep(hi, '-');
  }

  /** Without a dash, a text holding a comma is read piece by piece. */
  lemma CommaForm(text: string)
    requires '-' !in text && ',' in text
    ensures ParsePorts(text) == ParsePieces(Split(text, ','))
  {
  }

  /** Without a dash or a comma, the text is one port. */
  lemma SingleForm(text: string)
    requires '-' !in text && ',' !in text
    ensures ParsePorts(text).Ok? <==> ParseInt(text).Some?
    ensures ParsePorts(text).Ok? ==> ParsePorts(text).value == [ParseInt(text).value]
  {
  }

  function CountChar(s: string, c: char): nat
  {
    if s == [] then 0 else (if s[0] == c then 1 else 0) + CountChar(s[1..], c)
  }

  lemma {:induction false} SplitCount(s: string, sep: char)
    ensures |Split(s, sep)| == CountChar(s, sep) + 1
  {
    if s != [] { SplitCount(s[1..], sep); }
  }

  /** A character of the text other than the separator lands in some piece. */
  lemma {:induction false} SplitKeepsChar(s: string, sep: char, c: char) returns (i: nat)
    requires c in s && c != sep
    ensures i < |Split(s, sep)| && c in Split(s, sep)[i]
  {
    if s[0] == c {
      i := 0;
      assert Split(s, sep)[0][0] == c;
    } else {
      assert c in s[1..] by {
        var k :| 0 <= k < |s| && s[k] == c;
        assert s[1..][k - 1] == c;
      }
      var j := SplitKeepsChar(s[1..], sep, c);
      var rest := Split(s[1..], sep);
      if s[0] == sep {
        i := j + 1;
        assert Split(s, sep)[i] == rest[j];
      } else if j == 0 {
        i := 0;
        var k :| 0 <= k < |rest[0]| && rest[0][k] == c;
        assert Split(s, sep)[0][k + 1] == c;
      } else {
        i := j;
        assert Split(s, sep)[i] == rest[j];
      }
    }
  }

  lemma StripLeftKeeps(s: string, k: nat)
    requires k < |s| && !IsSpace(s[k])
    ensures |s| - |StripLeft(s)| <= k && StripLeft(s)[k - (|s| - |StripLeft(s)|)] == s[k]
  {
    StripLeftShape(s);
  }

  lemma StripRightKeeps(s: string, k: nat)
    requires k < |s| && !IsSpace(s[k])
    ensures k < |StripRight(s)| && StripRight(s)[k] == s[k]
  {
    StripRightShape(s);
  }

  /** A character that is not white space survives `strip()`. */
  lemma StripKeeps(s: string, c: char)
    requires c in s && !IsSpace(c)
    ensures c in Strip(s)
  {
    var k :| 0 <= k < |s| && s[k] == c;
    StripLeftKeeps(s, k);
    var l := StripLeft(s);
    StripRightKeeps(l, k - (|s| - |l|));
    assert StripRight(l)[k - (|s| - |l|)] == c;
  }

  /** `int()` refuses any text holding a comma. */
  lemma CommaIsNotANumber(piece: string)
    requires ',' in piece
    ensures ParseInt(piece) == None
  {
    StripKeeps(piece, ',');
    var t := Strip(piece);
    var k :| 0 <= k < |t| && t[k] == ',';
    if k > 0 { assert t[1..][k - 1] == ','; }
  }

  /** The dash takes precedence over the comma; a text holding both fails. */
  lemma MixedFormFails(text: string)
    requires '-' in text && ',' in text
    ensures ParsePorts(text).Err?
  {
    var parts := Split(text, '-');
    if |parts| == 2 {
      var i := SplitKeepsChar(text, '-', ',');
      CommaIsNotANumber(parts[i]);
    }
  }

  /** More than one dash fails: with the wrong number of pieces when the
      first three pieces are numbers, as `int()` otherwise. */
  lemma SeveralDashesFail(text: string)
    requires CountChar(text, '-') >= 2
    ensures ParsePorts(text).Err?
    ensures |Split(text, '-')| >= 3
    ensures var parts := Split(text, '-');
      ParsePorts(text) == Err(WrongPieceCount) <==>
        ParseInt(parts[0]).Some? && ParseInt(parts[1]).Some? && ParseInt(parts[2]).Some?
  {
    SplitCount(text, '-');
    if '-' !in text {
      NoCharCountZero(text, '-');
    }
  }

  /** Two dashes in a row fail as `int()`, never as a wrong piece count:
      `int('')` of the empty middle piece raises before the third piece is
      looked at. */
  lemma DoubleDashIsNotANumber(lo: string, hi: string)
    requires '-' !in lo && '-' !in hi
    ensures ParsePorts(lo + "--" + hi) == Err(NotANumber)
  {
    var text := lo + "--" + hi;
    var rest := [] + ['-'] + hi;
    assert text == lo + ['-'] + rest;
    assert text[|lo|] == '-';
    SplitAfterPiece(lo, '-', rest);
    SplitAfterPiece([], '-', hi);
    SplitWithoutSep(hi, '-');
    assert Split(text, '-') == [lo, "", hi];
    assert ParseInt("") == None;
  }

  lemma {:induction false} NoCharCountZero(s: string, c: char)
    requires c !in s
    ensures CountChar(s, c) == 0
  {
    if s != [] {
      assert c !in s[1..] by {
        forall k | 0 <= k < |s[1..]| ensures s[1..][k] != c { assert s[1..][k] == s[k + 1]; }
      }
      NoCharCountZero(s[1..], c);
    }
  }

  /** An empty side of the dash fails. */
  lemma EmptySideFails(lo: string, hi: string)
    requires '-' !in lo && '-' !in hi
    requires lo == [] || hi == []
    ensures ParsePorts(lo + "-" + hi) == Err(NotANumber)
  {
    var text := lo + "-" + hi;
    assert text[|lo|] == '-';
    SplitAfterPiece(lo, '-', hi);
    SplitWithoutSep(hi, '-');
  }

  lemma {:induction false} DecimalPiecesFree(xs: seq<nat>, c: char)
    requires !IsDigit(c)
    ensures forall i :: 0 <= i < |DecimalAll(xs)| ==> c !in DecimalAll(xs)[i]
  {
  }

  lemma {:induction false} JoinDecimalChars(xs: seq<nat>)
    ensures forall k :: 0 <= k < |Join(DecimalAll(xs), ",")| ==>
      IsDigit(Join(DecimalAll(xs), ",")[k]) || Join(DecimalAll(xs), ",")[k] == ','
  {
    if |xs| > 1 {
      JoinDecimalChars(xs[1..]);
      assert DecimalAll(xs)[1..] == DecimalAll(xs[1..]);
    }
  }

  /** Any non-empty list of ports written as the "Common Ports" button writes
      it reads back as the same list. */
  lemma {:induction false} JoinedPortsRoundTrip(xs: seq<nat>)
    requires |xs| >= 1
    ensures ParsePorts(Join(DecimalAll(xs), ",")) == Ok(xs)
  {
    var pieces := DecimalAll(xs);
    var text := Join(pieces, ",");
    JoinDecimalChars(xs);
    assert '-' !in text;
    forall i | 0 <= i < |pieces| ensures ParseInt(Strip(pieces[i])) == Some(xs[i]) {
      StripNoSpace(pieces[i]);
      ParseIntDecimalNat(xs[i]);
    }
    if |xs| == 1 {
      assert text == DecimalNat(xs[0]);
      assert ',' !in text;
      ParseIntDecimalNat(xs[0]);
      assert ParseInt(text) == Some(xs[0]);
      assert ParsePorts(text) == Ok([xs[0]]);
      assert xs == [xs[0]];
    } else {
      assert ',' in text by { assert text[|pieces[0]|] == ','; }
      DecimalPiecesFree(xs, ',');
      SplitJoin(pieces, ',');
      ParsePiecesSpec(pieces);
      assert ParsePorts(text) == ParsePieces(pieces);
      var r := ParsePieces(pieces).value;
      assert |r| == |xs|;
      assert forall i :: 0 <= i < |xs| ==> r[i] == xs[i];
      assert r == xs;
    }
  }

  /** The "Common Ports" text round-trips to the fifteen ports. */
  lemma CommonPortsRoundTrip()
    ensures ParsePorts(CommonPortsText()) == Ok(CommonPorts)
  {
    JoinedPortsRoundTrip(CommonPorts);
  }
}
