/** The RLE pattern loader of Conway.py (parse_rle): the lines of a pattern file are
    sorted into header, comment and body; the body is decoded by a cursor/count state
    machine and the decoded live cells are overlaid, centred, on the grid. */
module Rle {
  import opened Life

  // ---------------------------------------------------------------------------
  // The Python str operations the loader uses

  /** The characters str.strip() removes (str.isspace). */
  predicate IsSpace(c: char)
  {
    c == ' ' || ('\t' <= c <= '\r') || ('\U{1C}' <= c <= '\U{1F}') || c == '\U{85}' || c == '\U{A0}'
    || c == '\U{1680}' || ('\U{2000}' <= c <= '\U{200A}') || c == '\U{2028}' || c == '\U{2029}'
    || c == '\U{202F}' || c == '\U{205F}' || c == '\U{3000}'
  }

  /** s without its leading whitespace. */
  function TrimLeft(s: string): (r: string)
    ensures |r| <= |s| && r == s[|s| - |r|..]
    ensures r == [] || !IsSpace(r[0])
    ensures forall k :: 0 <= k < |s| - |r| ==> IsSpace(s[k])
  {
    if s != [] && IsSpace(s[0]) then TrimLeft(s[1..]) else s
  }

  /** s without its trailing whitespace. */
  function TrimRight(s: string): (r: string)
    ensures |r| <= |s| && r == s[..|r|]
    ensures r == [] || !IsSpace(r[|r| - 1])
    ensures forall k :: |r| <= k < |s| ==> IsSpace(s[k])
  {
    if s != [] && IsSpace(s[|s| - 1]) then TrimRight(s[..|s| - 1]) else s
  }

  /** str.strip() */
  function Strip(s: string): string
  {
    TrimRight(TrimLeft(s))
  }

  /** line.startswith(c) for a one-character prefix. */
  predicate StartsWith(line: string, c: char)
  {
    |line| > 0 && line[0] == c
  }

  /** The index of the first c in s, or |s| when there is none. */
  function IndexOf(s: string, c: char): (i: nat)
    ensures i <= |s|
    ensures i < |s| ==> s[i] == c
    ensures forall k :: 0 <= k < i ==> s[k] != c
  {
    if s == [] || s[0] == c then 0 else 1 + IndexOf(s[1..], c)
  }

  /** s.split(sep)[k]; None where Python raises IndexError (s has fewer than k separators). */
  function Piece(s: string, sep: char, k: nat): Option<string>
    decreases |s|
  {
    var i := IndexOf(s, sep);
    if i == |s| then (if k == 0 then Some(s) else None)
    else if k == 0 then Some(s[..i])
    else Piece(s[i + 1..], sep, k - 1)
  }

  predicate IsDigit(c: char)
  {
    '0' <= c <= '9'
  }

  predicate AllDigits(s: string)
  {
    forall k :: 0 <= k < |s| ==> IsDigit(s[k])
  }

  /** The number a string of decimal digits denotes (leading zeros allowed). */
  function DigitsValue(s: string): nat
    requires AllDigits(s)
  {
    if s == [] then 0 else 10 * DigitsValue(s[..|s| - 1]) + (s[|s| - 1] as int - '0' as int)
  }

  /** The decimal numeral of n. */
  function Decimal(n: nat): (s: string)
    ensures |s| > 0 && AllDigits(s)
  {
    if n < 10 then [('0' as int + n) as char] else Decimal(n / 10) + [('0' as int + n % 10) as char]
  }

  /** DigitsValue reads back the numeral Decimal writes. */
  lemma {:induction false} DigitsValueOfDecimal(n: nat)
    ensures DigitsValue(Decimal(n)) == n
  {
    if n >= 10 {
      var s := Decimal(n);
      assert s[..|s| - 1] == Decimal(n / 10);
      DigitsValueOfDecimal(n / 10);
    }
  }

  /** int(s) for a str: surrounding whitespace, an optional sign, then one or more
      ASCII digits; None where Python raises ValueError. */
  function ParseInt(s: string): Option<int>
  {
    var t := Strip(s);
    var signed := |t| > 0 && (t[0] == '+' || t[0] == '-');
    var digits := if signed then t[1..] else t;
    if |digits| == 0 || !AllDigits(digits) then None
    else
      var v: int := DigitsValue(digits);
      if signed && t[0] == '-' then Some(-v) else Some(v)
  }

  /** int() reads back a decimal numeral, also after a blank. */
  lemma ParseIntDecimal(n: nat)
    ensures ParseInt(Decimal(n)) == Some(n)
    ensures ParseInt(" " + Decimal(n)) == Some(n)
  {
    var d := Decimal(n);
    NoSpaceUnchanged(d);
    assert TrimLeft(" " + d) == TrimLeft(d) by {
      assert (" " + d)[1..] == d;
    }
    DigitsValueOfDecimal(n);
  }

  /** A nonempty string of digits has nothing to strip. */
  lemma NoSpaceUnchanged(d: string)
    requires |d| > 0 && AllDigits(d)
    ensures TrimLeft(d) == d && TrimRight(d) == d && Strip(d) == d
  {
    assert !IsSpace(d[0]) && !IsSpace(d[|d| - 1]);
  }

  // ---------------------------------------------------------------------------
  // Sorting the lines: header, comments, body

  /** The width and height a header line declares: int() of the text after the first
      '=' of each of its first two comma-separated fields.  None where the source raises
      (a missing field or '=', or text int() rejects). */
  function HeaderDims(line: string): Option<(int, int)>
  {
    match (Piece(line, ',', 0), Piece(line, ',', 1))
    case (Some(f0), Some(f1)) =>
      (match (Piece(f0, '=', 1), Piece(f1, '=', 1))
       case (Some(a), Some(b)) =>
         (match (ParseInt(a), ParseInt(b))
          case (Some(w), Some(h)) => Some((w, h))
          case _ => None)
       case _ => None)
    case _ => None
  }

  /** Splitting at the first separator of a + [c] + b, where a holds no c. */
  lemma PieceAtFirst(a: string, c: char, b: string, k: nat)
    requires c !in a
    ensures Piece(a + [c] + b, c, 0) == Some(a)
    ensures Piece(a + [c] + b, c, k + 1) == Piece(b, c, k)
  {
    var s := a + [c] + b;
    IndexOfFirst(a, c, b);
    assert s[..|a|] == a;
    assert s[|a| + 1..] == b;
  }

  lemma {:induction false} IndexOfFirst(a: string, c: char, b: string)
    requires c !in a
    ensures IndexOf(a + [c] + b, c) == |a|
  {
    if a != [] {
      assert (a + [c] + b)[1..] == a[1..] + [c] + b;
      IndexOfFirst(a[1..], c, b);
    }
  }

  /** A string without the separator is a single piece. */
  lemma PieceNoSeparator(a: string, c: char)
    requires c !in a
    ensures Piece(a, c, 0) == Some(a) && Piece(a, c, 1) == None
  {
    assert IndexOf(a, c) == |a|;
  }

  predicate AllSpace(s: string)
  {
    forall k :: 0 <= k < |s| ==> IsSpace(s[k])
  }

  /** Trailing whitespace after a numeral is stripped away. */
  lemma {:induction false} TrimTrailingSpace(d: string, ws: string)
    requires |d| > 0 && AllDigits(d) && AllSpace(ws)
    ensures TrimRight(d + ws) == d
    decreases |ws|
  {
    if ws == [] {
      assert d + ws == d;
      NoSpaceUnchanged(d);
    } else {
      assert (d + ws)[..|d + ws| - 1] == d + ws[..|ws| - 1];
      TrimTrailingSpace(d, ws[..|ws| - 1]);
    }
  }

  /** Stripping a blank, a numeral and trailing whitespace leaves the numeral. */
  lemma StripSpaced(d: string, ws: string)
    requires |d| > 0 && AllDigits(d) && AllSpace(ws)
    ensures Strip(" " + d + ws) == d
  {
    assert (" " + d + ws)[1..] == d + ws;
    assert !IsSpace((d + ws)[0]);
    TrimTrailingSpace(d, ws);
  }

  /** int() of a string that strips to a numeral is the numeral's value. */
  lemma ParseDigits(s: string, d: string)
    requires |d| > 0 && AllDigits(d) && Strip(s) == d
    ensures ParseInt(s) == Some(DigitsValue(d))
  {
    assert d[0] != '+' && d[0] != '-';
  }

  /** int() reads a numeral back after a blank and before trailing whitespace. */
  lemma ParseSpacedDecimal(n: nat, ws: string)
    requires AllSpace(ws)
    ensures ParseInt(" " + Decimal(n) + ws) == Some(n)
  {
    StripSpaced(Decimal(n), ws);
    ParseDigits(" " + Decimal(n) + ws, Decimal(n));
    DigitsValueOfDecimal(n);
  }

  /** A field "<name>= <numeral>" followed by whitespace holds the value of the numeral
      after its equals sign. */
  lemma FieldValue(name: string, n: nat, ws: string)
    requires '=' !in name && AllSpace(ws)
    ensures Piece(name + "= " + Decimal(n) + ws, '=', 1) == Some(" " + Decimal(n) + ws)
    ensures ParseInt(" " + Decimal(n) + ws) == Some(n)
  {
    var d := Decimal(n);
    assert '=' !in " " + d + ws by {
      assert forall k :: 0 <= k < |d| ==> IsDigit(d[k]);
      assert forall k :: 0 <= k < |ws| ==> IsSpace(ws[k]);
      forall k | 0 <= k < |" " + d + ws|
        ensures (" " + d + ws)[k] != '='
      {
        if 1 <= k < 1 + |d| {
          assert (" " + d + ws)[k] == d[k - 1];
        } else if k >= 1 + |d| {
          assert (" " + d + ws)[k] == ws[k - 1 - |d|];
        }
      }
    }
    assert name + "= " + d + ws == name + ['='] + (" " + d + ws);
    PieceAtFirst(name, '=', " " + d + ws, 0);
    PieceNoSeparator(" " + d + ws, '=');
    ParseSpacedDecimal(n, ws);
  }

  /** A prefix without commas followed by digits and whitespace holds no comma. */
  lemma NoCommaField(prefix: string, d: string, ws: string)
    requires ',' !in prefix && AllDigits(d) && AllSpace(ws)
    ensures ',' !in prefix + d + ws
  {
    forall k | 0 <= k < |prefix + d + ws|
      ensures (prefix + d + ws)[k] != ','
    {
      if |prefix| <= k < |prefix| + |d| {
        assert (prefix + d + ws)[k] == d[k - |prefix|];
      } else if k >= |prefix| + |d| {
        assert (prefix + d + ws)[k] == ws[k - |prefix| - |d|];
      }
    }
  }

  /** The first comma-separated field of f + rest, where rest is empty or starts with a
      comma. */
  lemma FirstField(f: string, rest: string)
    requires ',' !in f
    requires rest == [] || rest[0] == ','
    ensures Piece(f + rest, ',', 0) == Some(f)
  {
    if rest == [] {
      assert f + rest == f;
      PieceNoSeparator(f, ',');
    } else {
      assert f + rest == f + [','] + rest[1..];
      PieceAtFirst(f, ',', rest[1..], 0);
    }
  }

  /** The first two comma-separated fields of f0 + "," + f1 + rest, where rest is empty
      or starts a further field. */
  lemma TwoFields(f0: string, f1: string, rest: string)
    requires ',' !in f0 && ',' !in f1
    requires rest == [] || rest[0] == ','
    ensures Piece(f0 + [','] + (f1 + rest), ',', 0) == Some(f0)
    ensures Piece(f0 + [','] + (f1 + rest), ',', 1) == Some(f1)
  {
    PieceAtFirst(f0, ',', f1 + rest, 0);
    FirstField(f1, rest);
  }

  /** The header line "x = <dw>, y = <dh>" + ws + tail as its two fields joined by a comma. */
  lemma HeaderShape(dw: string, dh: string, ws: string, tail: string, none: string)
    requires none == []
    ensures "x = " + dw + ", y = " + dh + ws + tail == ("x " + "= " + dw + none) + [','] + ((" y " + "= " + dh + ws) + tail)
  {
  }

  /** HeaderDims from the pieces its parse goes through. */
  lemma HeaderDimsOf(line: string, f0: string, f1: string, a: string, b: string, w: int, h: int)
    requires Piece(line, ',', 0) == Some(f0) && Piece(line, ',', 1) == Some(f1)
    requires Piece(f0, '=', 1) == Some(a) && Piece(f1, '=', 1) == Some(b)
    requires ParseInt(a) == Some(w) && ParseInt(b) == Some(h)
    ensures HeaderDims(line) == Some((w, h))
  {
  }

  /** The header a pattern writer emits, "x = <w>, y = <h>", then any whitespace (the
      line ending readlines() keeps), then nothing or further comma-separated fields
      such as ", rule = B3/S23", declares w by h. */
  lemma HeaderRoundTrip(w: nat, h: nat, ws: string, tail: string)
    requires AllSpace(ws)
    requires tail == [] || tail[0] == ','
    ensures HeaderDims("x = " + Decimal(w) + ", y = " + Decimal(h) + ws + tail) == Some((w, h))
  {
    var dw, dh := Decimal(w), Decimal(h);
    var xName, yName := "x ", " y ";
    var none: string := [];
    var f0, f1 := xName + "= " + dw + none, yName + "= " + dh + ws;
    HeaderShape(dw, dh, ws, tail, none);
    NoCommaField(xName + "= ", dw, none);
    NoCommaField(yName + "= ", dh, ws);
    TwoFields(f0, f1, tail);
    FieldValue(xName, w, none);
    FieldValue(yName, h, ws);
    HeaderDimsOf(f0 + [','] + (f1 + tail), f0, f1, " " + dw + none, " " + dh + ws, w, h);
  }

  /** A header line as readlines() delivers it, ending in a newline, declares w by h. */
  lemma HeaderLine(w: nat, h: nat, newline: char)
    requires newline == '\n'
    ensures HeaderDims("x = " + Decimal(w) + ", y = " + Decimal(h) + [newline]) == Some((w, h))
  {
    var none: string := [];
    HeaderRoundTrip(w, h, [newline], none);
    assert "x = " + Decimal(w) + ", y = " + Decimal(h) + [newline] + none == "x = " + Decimal(w) + ", y = " + Decimal(h) + [newline];
  }

  /** What the line scan has gathered: the declared width and height and the body text. */
  datatype Sections = Sections(width: int, height: int, data: string)

  /** The effect of one line: a line starting with 'x' is a header and sets width and
      height; a line starting with '#' is a comment and is dropped; any other line is
      stripped and appended to the body.  None where the header parse raises. */
  function ClassifyLine(s: Sections, line: string): Option<Sections>
  {
    if StartsWith(line, 'x') then
      match HeaderDims(line)
      case Some((w, h)) => Some(Sections(w, h, s.data))
      case None => None
    else if StartsWith(line, '#') then Some(s)
    else Some(s.(data := s.data + Strip(line)))
  }

  /** The line scan of parse_rle over all lines, starting from width = height = 0 and
      an empty body. */
  function Classify(lines: seq<string>): Option<Sections>
  {
    if lines == [] then Some(Sections(0, 0, ""))
    else
      match Classify(lines[..|lines| - 1])
      case Some(s) => ClassifyLine(s, lines[|lines| - 1])
      case None => None
  }

  /** Once a header has failed to parse, the scan has failed for good. */
  lemma {:induction false} FailureStays(lines: seq<string>, k: nat)
    requires k <= |lines| && Classify(lines[..k]).None?
    ensures Classify(lines).None?
    decreases |lines| - k
  {
    if k < |lines| {
      assert lines[..k + 1][..k] == lines[..k];
      FailureStays(lines, k + 1);
    } else {
      assert lines[..k] == lines;
    }
  }

  /** The loop of parse_rle over the lines (Conway.py:78-86). */
  method ScanLines(lines: seq<string>) returns (r: Option<Sections>)
    ensures r == Classify(lines)
  {
    var width, height := 0, 0;
    var data := "";
    var i := 0;
    while i < |lines|
      invariant 0 <= i <= |lines|
      invariant Classify(lines[..i]) == Some(Sections(width, height, data))
    {
      var line := lines[i];
      assert lines[..i + 1][..i] == lines[..i];
      if StartsWith(line, 'x') {
        var dims := HeaderDims(line);
        if dims.None? {
          FailureStays(lines, i + 1);
          return None;
        }
        width, height := dims.value.0, dims.value.1;
      } else if !StartsWith(line, '#') {
        data := data + Strip(line);
      }
      i := i + 1;
    }
    assert lines[..i] == lines;
    r := Some(Sections(width, height, data));
  }

  /** What a line contributes to the body. */
  function BodyPart(line: string): string
  {
    if StartsWith(line, 'x') || StartsWith(line, '#') then "" else Strip(line)
  }

  /** The reference body: the stripped lines that are neither header nor comment, in order. */
  function BodyText(lines: seq<string>): string
  {
    if lines == [] then "" else BodyText(lines[..|lines| - 1]) + BodyPart(lines[|lines| - 1])
  }

  lemma ClassifyLineBody(s: Sections, line: string)
    requires ClassifyLine(s, line).Some?
    ensures ClassifyLine(s, line).value.data == s.data + BodyPart(line)
  {
    if StartsWith(line, 'x') || StartsWith(line, '#') {
      assert s.data + BodyPart(line) == s.data;
    }
  }

  /** The body the scan gathers is the concatenation of the stripped non-header,
      non-comment lines. */
  lemma {:induction false} ClassifyBody(lines: seq<string>)
    requires Classify(lines).Some?
    ensures Classify(lines).value.data == BodyText(lines)
  {
    if lines != [] {
      var init, last := lines[..|lines| - 1], lines[|lines| - 1];
      assert Classify(init).Some?;
      var s := Classify(init).value;
      assert Classify(lines) == ClassifyLine(s, last);
      ClassifyBody(init);
      ClassifyLineBody(s, last);
      assert Classify(lines).value.data == BodyText(init) + BodyPart(last);
    }
  }

  /** Without a header line, the declared size is 0 by 0 and the scan cannot fail. */
  lemma {:induction false} NoHeaderNoSize(lines: seq<string>)
    requires forall k :: 0 <= k < |lines| ==> !StartsWith(lines[k], 'x')
    ensures Classify(lines).Some?
    ensures Classify(lines).value.width == 0 && Classify(lines).value.height == 0
  {
    if lines != [] {
      NoHeaderNoSize(lines[..|lines| - 1]);
    }
  }

  /** The declared size is the one of the last header line; earlier headers are overridden. */
  lemma {:induction false} LastHeaderWins(lines: seq<string>, k: nat)
    requires k < |lines| && StartsWith(lines[k], 'x')
    requires forall j :: k < j < |lines| ==> !StartsWith(lines[j], 'x')
    requires Classify(lines).Some?
    ensures HeaderDims(lines[k]) == Some((Classify(lines).value.width, Classify(lines).value.height))
  {
    var init, last := lines[..|lines| - 1], lines[|lines| - 1];
    assert Classify(init).Some? && Classify(lines) == ClassifyLine(Classify(init).value, last);
    if k < |lines| - 1 {
      assert forall j :: k < j < |init| ==> init[j] == lines[j];
      LastHeaderWins(init, k);
      CommentOrBodyKeepsSize(Classify(init).value, last);
    }
  }

  /** A line that is not a header leaves the declared size as it was. */
  lemma CommentOrBodyKeepsSize(s: Sections, line: string)
    requires !StartsWith(line, 'x')
    ensures ClassifyLine(s, line).Some?
    ensures ClassifyLine(s, line).value.width == s.width && ClassifyLine(s, line).value.height == s.height
  {
  }

  // ---------------------------------------------------------------------------
  // Decoding the body

  /** The decoder state: the cursor (x, y) relative to the pattern's top-left corner,
      the pending run-count digits, whether '!' has been read, and the relative cells
      written so far. */
  datatype Cursor = Cursor(x: nat, y: nat, pending: string, stopped: bool, live: set<(int, int)>)

  const Fresh := Cursor(0, 0, "", false, {})

  /** The count a run letter uses: the pending digits, or 1 when there are none. */
  function RunCount(pending: string): nat
    requires AllDigits(pending)
  {
    if pending == [] then 1 else DigitsValue(pending)
  }

  /** The cells an 'o' run of length n writes from (x, y). */
  function RunCells(x: int, y: int, n: nat): set<(int, int)>
  {
    if n == 0 then {} else RunCells(x, y, n - 1) + {(x + n - 1, y)}
  }

  /** One body character: a digit extends the count; 'o' writes a run of live cells and
      advances x; 'b' advances x; '$' advances y and returns x to 0; '!' stops decoding;
      any other character only discards the count.  After '!' nothing changes. */
  function Feed(c: Cursor, ch: char): (r: Cursor)
    requires AllDigits(c.pending)
    ensures AllDigits(r.pending)
  {
    if c.stopped then c
    else if IsDigit(ch) then c.(pending := c.pending + [ch])
    else
      var n := RunCount(c.pending);
      if ch == 'o' then Cursor(c.x + n, c.y, "", false, c.live + RunCells(c.x, c.y, n))
      else if ch == 'b' then c.(x := c.x + n, pending := "")
      else if ch == '$' then c.(x := 0, y := c.y + n, pending := "")
      else if ch == '!' then c.(stopped := true)
      else c.(pending := "")
  }

  /** The decoder run over s, from cursor c. */
  function Run(c: Cursor, s: string): (r: Cursor)
    requires AllDigits(c.pending)
    ensures AllDigits(r.pending)
    ensures c.stopped ==> r == c
  {
    if s == [] then c else Feed(Run(c, s[..|s| - 1]), s[|s| - 1])
  }

  /** The decoder run over a whole body. */
  function Decode(data: string): Cursor
  {
    Run(Fresh, data)
  }

  /** Decoding a concatenation decodes the second part from where the first left off. */
  lemma {:induction false} RunAppend(c: Cursor, s: string, t: string)
    requires AllDigits(c.pending)
    ensures Run(c, s + t) == Run(Run(c, s), t)
    decreases |t|
  {
    if t == [] {
      assert s + t == s;
    } else {
      assert (s + t)[..|s + t| - 1] == s + t[..|t| - 1];
      RunAppend(c, s, t[..|t| - 1]);
    }
  }

  /** What follows '!' is ignored. */
  lemma StoppedStays(data: string, k: nat)
    requires k <= |data| && Decode(data[..k]).stopped
    ensures Decode(data) == Decode(data[..k])
  {
    assert data == data[..k] + data[k..];
    RunAppend(Fresh, data[..k], data[k..]);
  }

  /** An 'o' run of length n from (x, y) covers exactly the cells x .. x + n - 1 of row y. */
  lemma {:induction false} RunCellsRow(x: int, y: int, n: nat)
    ensures forall p :: p in RunCells(x, y, n) <==> p.1 == y && x <= p.0 < x + n
  {
    if n > 0 {
      RunCellsRow(x, y, n - 1);
    }
  }

  /** An 'o' before '!' adds the run's cells to the pattern and moves x past the run,
      whatever the count; the row and the cells already decoded stay. */
  lemma LiveRun(c: Cursor, n: nat)
    requires AllDigits(c.pending) && !c.stopped && RunCount(c.pending) == n
    ensures Feed(c, 'o').x == c.x + n && Feed(c, 'o').y == c.y && Feed(c, 'o').pending == ""
    ensures forall p :: p in Feed(c, 'o').live <==> p in c.live || (p.1 == c.y && c.x <= p.0 < c.x + n)
  {
    RunCellsRow(c.x, c.y, n);
  }

  /** The decoder over four characters, one Feed at a time. */
  lemma RunFour(c: Cursor, c0: char, c1: char, c2: char, c3: char)
    requires AllDigits(c.pending)
    ensures Run(c, [c0, c1, c2, c3]) == Feed(Feed(Feed(Feed(c, c0), c1), c2), c3)
  {
    RunSnoc(c, [], c0);
    RunSnoc(c, [c0], c1);
    RunSnoc(c, [c0, c1], c2);
    RunSnoc(c, [c0, c1, c2], c3);
    assert [] + [c0] == [c0] && [c0] + [c1] == [c0, c1];
    assert [c0, c1] + [c2] == [c0, c1, c2] && [c0, c1, c2] + [c3] == [c0, c1, c2, c3];
  }

  /** Decoding one more character is one more Feed. */
  lemma RunSnoc(c: Cursor, s: string, ch: char)
    requires AllDigits(c.pending)
    ensures Run(c, s + [ch]) == Feed(Run(c, s), ch)
  {
    assert (s + [ch])[..|s|] == s;
  }

  // The single steps the diamond example below takes, each from a cursor with no
  // pending count.

  /** 'b' moves one cell right. */
  lemma DeadFeed(c: Cursor, ch: char)
    requires c.pending == "" && !c.stopped && ch == 'b'
    ensures Feed(c, ch) == c.(x := c.x + 1)
  {
  }

  /** 'o' writes the cell under the cursor and moves one cell right. */
  lemma LiveFeed(c: Cursor, ch: char)
    requires c.pending == "" && !c.stopped && ch == 'o'
    ensures Feed(c, ch) == c.(x := c.x + 1, live := c.live + {(c.x, c.y)})
  {
    assert RunCells(c.x, c.y, 1) == {(c.x, c.y)};
  }

  /** '$' moves to the start of the next row. */
  lemma RowFeed(c: Cursor, ch: char)
    requires c.pending == "" && !c.stopped && ch == '$'
    ensures Feed(c, ch) == c.(x := 0, y := c.y + 1)
  {
  }

  /** '!' stops the decoder where it stands. */
  lemma StopFeed(c: Cursor, ch: char)
    requires c.pending == "" && !c.stopped && ch == '!'
    ensures Feed(c, ch) == c.(stopped := true)
  {
  }

  /** The first row of the diamond, "bob$": a live cell at (1, 0), then row 1. */
  lemma DiamondTop(b: char, o: char, eol: char, live: set<(int, int)>)
    requires b == 'b' && o == 'o' && eol == '$'
    ensures Run(Cursor(0, 0, "", false, live), [b, o, b, eol]) == Cursor(0, 1, "", false, live + {(1, 0)})
  {
    var c := Cursor(0, 0, "", false, live);
    RunFour(c, b, o, b, eol);
    DeadFeed(c, b);
    LiveFeed(c.(x := 1), o);
    DeadFeed(c.(x := 2, live := live + {(1, 0)}), b);
    RowFeed(c.(x := 3, live := live + {(1, 0)}), eol);
  }

  /** The second row, "obo$": live cells at (0, 1) and (2, 1), then row 2. */
  lemma DiamondMiddle(b: char, o: char, eol: char, live: set<(int, int)>)
    requires b == 'b' && o == 'o' && eol == '$'
    ensures Run(Cursor(0, 1, "", false, live), [o, b, o, eol]) == Cursor(0, 2, "", false, live + {(0, 1), (2, 1)})
  {
    var c := Cursor(0, 1, "", false, live);
    RunFour(c, o, b, o, eol);
    LiveFeed(c, o);
    DeadFeed(c.(x := 1, live := live + {(0, 1)}), b);
    LiveFeed(c.(x := 2, live := live + {(0, 1)}), o);
    RowFeed(c.(x := 3, live := live + {(0, 1)} + {(2, 1)}), eol);
  }

  /** The last row, "bob!": a live cell at (1, 2), then the decoder stops. */
  lemma DiamondBottom(b: char, o: char, bang: char, live: set<(int, int)>)
    requires b == 'b' && o == 'o' && bang == '!'
    ensures Run(Cursor(0, 2, "", false, live), [b, o, b, bang]).live == live + {(1, 2)}
  {
    var c := Cursor(0, 2, "", false, live);
    RunFour(c, b, o, b, bang);
    DeadFeed(c, b);
    LiveFeed(c.(x := 1), o);
    DeadFeed(c.(x := 2, live := live + {(1, 2)}), b);
    StopFeed(c.(x := 3, live := live + {(1, 2)}), bang);
  }

  /** Decoding three consecutive pieces chains the decoder through each. */
  lemma RunThree(c: Cursor, s0: string, s1: string, s2: string)
    requires AllDigits(c.pending)
    ensures Run(c, s0 + s1 + s2) == Run(Run(Run(c, s0), s1), s2)
  {
    RunAppend(c, s0, s1);
    RunAppend(c, s0 + s1, s2);
  }

  /** The body "bob$obo$bob!", row by row, decodes to the diamond of four live cells
      around (1, 1). */
  lemma DiamondCells(b: char, o: char, eol: char, bang: char)
    requires b == 'b' && o == 'o' && eol == '$' && bang == '!'
    ensures Decode([b, o, b, eol] + [o, b, o, eol] + [b, o, b, bang]).live == {(1, 0), (0, 1), (2, 1), (1, 2)}
  {
    RunThree(Fresh, [b, o, b, eol], [o, b, o, eol], [b, o, b, bang]);
    DiamondTop(b, o, eol, {});
    DiamondMiddle(b, o, eol, {} + {(1, 0)});
    DiamondBottom(b, o, bang, {} + {(1, 0)} + {(0, 1), (2, 1)});
  }

  /** The body "bob$obo$bob!" decodes to the diamond {(1, 0), (0, 1), (2, 1), (1, 2)}. */
  lemma DiamondExample()
    ensures Decode("bob$obo$bob!").live == {(1, 0), (0, 1), (2, 1), (1, 2)}
  {
    assert "bob$obo$bob!" == ['b', 'o', 'b', '$'] + ['o', 'b', 'o', '$'] + ['b', 'o', 'b', '!'];
    DiamondCells('b', 'o', '$', '!');
  }

  /** Decoding one more character of the body is one more Feed. */
  lemma DecodeStep(data: string, k: nat)
    requires k < |data|
    ensures Decode(data[..k + 1]) == Feed(Decode(data[..k]), data[k])
  {
    assert data[..k + 1] == data[..k] + [data[k]];
    RunSnoc(Fresh, data[..k], data[k]);
  }

  /** One 'o' run of the decoding loop: the n cells from (x, y) of the pattern, shifted
      by (sx, sy), become 1 wherever they fall inside the grid. */
  method WriteRun(grid: array2<int>, x: nat, y: nat, n: nat, sx: int, sy: int,
                  ghost live: set<(int, int)>, ghost before: Grid)
    requires IsGrid(before, grid.Length0, grid.Length1)
    requires forall i, j :: InGrid(grid.Length0, grid.Length1, i, j) ==>
      grid[i, j] == if (i - sx, j - sy) in live then 1 else before[i][j]
    modifies grid
    ensures forall i, j :: InGrid(grid.Length0, grid.Length1, i, j) ==>
      grid[i, j] == if (i - sx, j - sy) in live + RunCells(x, y, n) then 1 else before[i][j]
  {
    var t := 0;
    while t < n
      invariant 0 <= t <= n
      invariant forall i, j :: InGrid(grid.Length0, grid.Length1, i, j) ==>
        grid[i, j] == if (i - sx, j - sy) in live + RunCells(x, y, t) then 1 else before[i][j]
    {
      var gx, gy := x + t + sx, y + sy;
      if 0 <= gx < grid.Length0 && 0 <= gy < grid.Length1 {
        grid[gx, gy] := 1;
      }
      t := t + 1;
    }
  }

  /** The decoding loop of parse_rle (Conway.py:106-129), writing 1 into every in-range
      grid cell (sx + px, sy + py) for a decoded cell (px, py). */
  method DecodeInto(grid: array2<int>, data: string, sx: int, sy: int)
    modifies grid
    ensures Cells(grid) == Overlay(old(Cells(grid)), grid.Length0, grid.Length1, Decode(data).live, sx, sy)
  {
    ghost var before := Cells(grid);
    var w, h := grid.Length0, grid.Length1;
    var x: nat, y: nat := 0, 0;
    var count := "";
    ghost var live: set<(int, int)> := {};
    var k := 0;
    while k < |data|
      invariant 0 <= k <= |data|
      invariant Decode(data[..k]) == Cursor(x, y, count, false, live)
      invariant forall i, j :: InGrid(w, h, i, j) ==> grid[i, j] == if (i - sx, j - sy) in live then 1 else before[i][j]
    {
      var ch := data[k];
      DecodeStep(data, k);
      if IsDigit(ch) {
        count := count + [ch];
      } else {
        var n := if count == "" then 1 else DigitsValue(count);
        if ch == 'o' {
          WriteRun(grid, x, y, n, sx, sy, live, before);
          live := live + RunCells(x, y, n);
          x := x + n;
        } else if ch == 'b' {
          x := x + n;
        } else if ch == '$' {
          y := y + n;
          x := 0;
        } else if ch == '!' {
          StoppedStays(data, k + 1);
          break;
        }
        count := "";
      }
      k := k + 1;
    }
    assert k == |data| ==> data[..k] == data;
    SameGrid(Cells(grid), Overlay(before, w, h, Decode(data).live, sx, sy), w, h);
  }

  // ---------------------------------------------------------------------------
  // Loading: the oversize prompt and centring

  /** How a load ends: the pattern was overlaid; the oversize prompt was declined; or the
      header could not be parsed (the source raises there). */
  datatype Outcome = Loaded | Declined | Malformed

  /** The offset that centres a pattern of the given size on a grid axis:
      (grid - pattern) // 2, which is negative when the pattern is larger than the grid.
      The two margins differ by at most one cell. */
  function CenterOffset(gridSize: int, patternSize: int): (r: int)
    ensures 2 * r <= gridSize - patternSize <= 2 * r + 1
    ensures r < 0 <==> patternSize > gridSize
  {
    (gridSize - patternSize) / 2
  }

  /** The prompt is shown iff the declared size exceeds the grid on either axis. */
  predicate Oversize(s: Sections, w: int, h: int)
  {
    s.width > w || s.height > h
  }

  /** What a load reports: Malformed iff the header scan fails; Declined iff the
      declared size exceeds the grid and the user answers no; Loaded otherwise. */
  function Verdict(lines: seq<string>, w: int, h: int, proceed: bool): (r: Outcome)
    ensures r == Malformed <==> Classify(lines).None?
    ensures r == Declined <==> Classify(lines).Some? && Oversize(Classify(lines).value, w, h) && !proceed
  {
    match Classify(lines)
    case None => Malformed
    case Some(s) => if Oversize(s, w, h) && !proceed then Declined else Loaded
  }

  /** The grid after a load: unchanged unless the verdict is Loaded, and then the decoded
      cells overlaid at the centring offsets.  A 0/1 grid stays 0/1 and no live cell dies. */
  function LoadedGrid(g: Grid, w: nat, h: nat, lines: seq<string>, proceed: bool): (r: Grid)
    requires IsGrid(g, w, h)
    ensures IsGrid(r, w, h)
    ensures Verdict(lines, w, h, proceed) != Loaded ==> r == g
    ensures forall x, y :: InGrid(w, h, x, y) && g[x][y] == 1 ==> r[x][y] == 1
    ensures Binary(g) ==> Binary(r)
  {
    match Classify(lines)
    case None => g
    case Some(s) =>
      if Oversize(s, w, h) && !proceed then g
      else Overlay(g, w, h, Decode(s.data).live, CenterOffset(w, s.width), CenterOffset(h, s.height))
  }

  /** parse_rle on the lines of a pattern file, with proceed standing for the answer the
      user gives to the oversize prompt (consulted only when it is shown).  The grid's
      shape is GRID_WIDTH x GRID_HEIGHT. */
  method ParseRle(grid: array2<int>, lines: seq<string>, proceed: bool) returns (outcome: Outcome)
    modifies grid
    ensures outcome == Verdict(lines, grid.Length0, grid.Length1, proceed)
    ensures Cells(grid) == LoadedGrid(old(Cells(grid)), grid.Length0, grid.Length1, lines, proceed)
  {
    var scanned := ScanLines(lines);
    if scanned.None? {
      return Malformed;
    }
    var s := scanned.value;
    if s.width > grid.Length0 || s.height > grid.Length1 {
      if !proceed {
        return Declined;
      }
    }
    var startX := CenterOffset(grid.Length0, s.width);
    var startY := CenterOffset(grid.Length1, s.height);
    DecodeInto(grid, s.data, startX, startY);
    outcome := Loaded;
  }

  /** A file choice from the Open RLE dialog: the file's lines and the answer the user
      would give to the oversize prompt. */
  datatype FileChoice = FileChoice(lines: seq<string>, proceed: bool)
}
