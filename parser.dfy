// The parsing half of PointProcessor::LoadFile: the input file is a stream of
// %f fields read three at a time with fscanf("%f%f%f").

module Parser {
  import opened Geometry

  /** One field as fscanf's %f conversion delimits it (it ends where the
      conversion stops, not at whitespace): a number, a NaN (which %f
      converts), or text %f rejects. */
  datatype Token = Num(r: real) | NaN | Bad

  /** The four ways a load fails. */
  datatype LoadError = OpenError | FormatError | ValueError | EmptyFileError

  /** The message LoadFile stores with each failure. */
  function Message(e: LoadError): (m: string)
    ensures |m| > 0
  {
    match e
    case OpenError => "Failed to open file!"
    case FormatError => "Failed to parse file, invalid format"
    case ValueError => "Failed to parse file: invalid value(s) encountered"
    case EmptyFileError => "No data found in file"
  }

  /** Each kind of failure has its own message, so the stored message tells
      which failure happened. */
  lemma MessagesDistinct(e1: LoadError, e2: LoadError)
    ensures Message(e1) == Message(e2) <==> e1 == e2
  {
  }

  predicate IsLoadErrorMessage(s: string)
  {
    s == Message(OpenError) || s == Message(FormatError)
    || s == Message(ValueError) || s == Message(EmptyFileError)
  }

  /** The file as LoadFile sees it: either fopen fails, or it has a size in
      bytes and a token stream. */
  datatype FileInput = Unopenable | Readable(size: nat, tokens: seq<Token>)

  /** fscanf's return value at end of input. */
  const EOF: int := -1

  /** The result of one fscanf("%f%f%f") call: its return value and the
      converted fields, in order. */
  datatype Fscanf = Fscanf(res: int, fields: seq<Token>)

  /** How many of the first (at most n) tokens are converted before the first
      token that %f rejects. */
  function Converted(ts: seq<Token>, n: nat): (k: nat)
    ensures k <= n && k <= |ts|
    ensures forall i :: 0 <= i < k ==> !ts[i].Bad?
    ensures k < n && k < |ts| ==> ts[k].Bad?
  {
    if n == 0 || |ts| == 0 || ts[0].Bad? then 0 else 1 + Converted(ts[1..], n - 1)
  }

  /** fscanf(file, "%f%f%f", ...) with the read position at pos: EOF when no
      token is left, otherwise the number of fields converted. */
  function Fscanf3(ts: seq<Token>, pos: nat): (f: Fscanf)
    requires pos <= |ts|
    ensures f.res == EOF <==> pos == |ts|
    ensures f.res != EOF ==> 0 <= f.res <= 3 && pos + f.res <= |ts| && f.fields == ts[pos..pos + f.res]
    ensures f.res == 3 <==> ConvertedTriple(ts, pos)
    ensures f.res != EOF ==> forall i :: pos <= i < pos + f.res ==> !ts[i].Bad?
    ensures f.res != EOF && f.res < 3 && pos + f.res < |ts| ==> ts[pos + f.res].Bad?
  {
    if pos == |ts| then Fscanf(EOF, [])
    else
      var k := Converted(ts[pos..], 3);
      Fscanf(k, ts[pos..pos + k])
  }

  /** Three tokens from m on, each converted by %f. */
  predicate ConvertedTriple(ts: seq<Token>, m: nat)
  {
    m + 3 <= |ts| && !ts[m].Bad? && !ts[m + 1].Bad? && !ts[m + 2].Bad?
  }

  /** Three numbers (no NaN) from m on. */
  predicate NumericTriple(ts: seq<Token>, m: nat)
  {
    m + 3 <= |ts| && ts[m].Num? && ts[m + 1].Num? && ts[m + 2].Num?
  }

  function PointAt(ts: seq<Token>, m: nat): (p: Point)
    requires NumericTriple(ts, m)
  {
    Point(ts[m].r, ts[m + 1].r, ts[m + 2].r)
  }

  /** Why the parse loop stopped. */
  datatype Stop = EndOfInput | StoppedBy(error: LoadError)

  /** The points pushed before the loop stopped, and why it stopped. */
  datatype ScanOutcome = ScanOutcome(accepted: seq<Point>, stop: Stop)

  /** The parse loop of LoadFile, triple by triple: a triple that is not three
      converted fields is a format error, one with a NaN field a value error. */
  function Scan(ts: seq<Token>): (s: ScanOutcome)
    decreases |ts|
    ensures 3 * |s.accepted| <= |ts|
  {
    if |ts| == 0 then ScanOutcome([], EndOfInput)
    else if !ConvertedTriple(ts, 0) then ScanOutcome([], StoppedBy(FormatError))
    else if !NumericTriple(ts, 0) then ScanOutcome([], StoppedBy(ValueError))
    else
      var rest := Scan(ts[3..]);
      ScanOutcome([PointAt(ts, 0)] + rest.accepted, rest.stop)
  }

  /** Scan accepts the leading triples of numbers, one point per triple in
      input order, and stops at the end of input exactly when every token
      was used; otherwise the triple it stopped at is short or holds a bad
      token (a format error) or holds a NaN (a value error). */
  lemma {:induction false} ScanSpec(ts: seq<Token>)
    decreases |ts|
    ensures var s := Scan(ts);
      && (forall i :: 0 <= i < |s.accepted| ==>
            NumericTriple(ts, 3 * i) && s.accepted[i] == PointAt(ts, 3 * i))
      && (s.stop == EndOfInput <==> 3 * |s.accepted| == |ts|)
      && (s.stop == StoppedBy(FormatError) <==>
            3 * |s.accepted| < |ts| && !ConvertedTriple(ts, 3 * |s.accepted|))
      && (s.stop == StoppedBy(ValueError) <==>
            ConvertedTriple(ts, 3 * |s.accepted|) && !NumericTriple(ts, 3 * |s.accepted|))
      && (s.stop.StoppedBy? ==>
            && 3 * |s.accepted| < |ts| && !NumericTriple(ts, 3 * |s.accepted|)
            && (s.stop.error == FormatError || s.stop.error == ValueError))
  {
    if 3 <= |ts| && NumericTriple(ts, 0) {
      ScanSpec(ts[3..]);
      ShiftTriples(ts);
    }
  }

  /** Dropping the first triple shifts every later triple by three tokens. */
  lemma ShiftTriples(ts: seq<Token>)
    requires 3 <= |ts|
    ensures forall m: nat :: ConvertedTriple(ts[3..], m) <==> ConvertedTriple(ts, m + 3)
    ensures forall m: nat :: NumericTriple(ts[3..], m) <==> NumericTriple(ts, m + 3)
    ensures forall m: nat :: NumericTriple(ts, m + 3) ==> PointAt(ts[3..], m) == PointAt(ts, m + 3)
    ensures forall i :: 0 < i && NumericTriple(ts[3..], 3 * (i - 1)) ==>
              NumericTriple(ts, 3 * i) && PointAt(ts[3..], 3 * (i - 1)) == PointAt(ts, 3 * i)
  {
  }

  /** The parse loop of LoadFile: calls fscanf until it returns EOF, stopping
      early at a short read or a NaN field. */
  method ReadTriples(ts: seq<Token>) returns (accepted: seq<Point>, stop: Stop)
    ensures ScanOutcome(accepted, stop) == Scan(ts)
  {
    accepted := [];
    var pos := 0;
    assert ts[pos..] == ts;
    while true
      invariant pos <= |ts|
      invariant Scan(ts) == ScanOutcome(accepted + Scan(ts[pos..]).accepted, Scan(ts[pos..]).stop)
      decreases |ts| - pos
    {
      var f := Fscanf3(ts, pos);
      if f.res == EOF {
        return accepted, EndOfInput;
      }
      if f.res != 3 {
        return accepted, StoppedBy(FormatError);
      }
      var x, y, z := f.fields[0], f.fields[1], f.fields[2];
      if x.NaN? || y.NaN? || z.NaN? {
        return accepted, StoppedBy(ValueError);
      }
      assert ts[pos..][3..] == ts[pos + 3..];
      accepted := accepted + [Point(x.r, y.r, z.r)];
      pos := pos + 3;
    }
  }

  /** What LoadFile yields before its statistics passes. */
  datatype LoadResult = LoadOk(points: seq<Point>) | LoadErr(error: LoadError)

  /** The outcome of LoadFile on an input: open, scan, then reject an empty
      result. */
  function Load(input: FileInput): (r: LoadResult)
    ensures r.LoadOk? ==> input.Readable? && |r.points| > 0 && 3 * |r.points| == |input.tokens|
    ensures r == LoadErr(OpenError) <==> input.Unopenable?
    ensures r == LoadErr(EmptyFileError) <==> input.Readable? && input.tokens == []
  {
    match input
    case Unopenable => LoadErr(OpenError)
    case Readable(_, ts) =>
      ScanSpec(ts);
      var s := Scan(ts);
      if s.stop.StoppedBy? then LoadErr(s.stop.error)
      else if |s.accepted| == 0 then LoadErr(EmptyFileError)
      else LoadOk(s.accepted)
  }

  /** A load succeeds exactly when the file opens and holds a positive whole
      number of triples of numbers, and then yields one point per triple, in
      order. */
  lemma LoadSucceedsIff(input: FileInput)
    ensures Load(input).LoadOk? <==>
              && input.Readable?
              && 0 < |input.tokens| && |input.tokens| % 3 == 0
              && forall i :: 0 <= i < |input.tokens| ==> input.tokens[i].Num?
    ensures Load(input).LoadOk? ==>
              forall i :: 0 <= i < |Load(input).points| ==>
                Load(input).points[i] == PointAt(input.tokens, 3 * i)
  {
    if input.Readable? {
      var ts := input.tokens;
      ScanSpec(ts);
      var s := Scan(ts);
      var n := |s.accepted|;
      if Load(input).LoadOk? {
        forall i | 0 <= i < |ts|
          ensures ts[i].Num?
        {
          var t := i / 3;
          assert t < n && 3 * t <= i < 3 * t + 3;
          assert NumericTriple(ts, 3 * t);
        }
      }
      if 0 < |ts| && |ts| % 3 == 0 && forall i :: 0 <= i < |ts| ==> ts[i].Num? {
        if 3 * n < |ts| {
          assert 3 * n + 3 <= |ts| by {
            assert |ts| == 3 * (|ts| / 3);
          }
          assert NumericTriple(ts, 3 * n);
        }
        assert s.stop == EndOfInput;
      }
    }
  }

  /** Writes points out as the token stream of a well-formed file. */
  function Encode(ps: seq<Point>): (ts: seq<Token>)
    ensures |ts| == 3 * |ps|
  {
    if ps == [] then [] else [Num(ps[0].x), Num(ps[0].y), Num(ps[0].z)] + Encode(ps[1..])
  }

  /** Scanning the encoding of a point sequence gives back that sequence. */
  lemma {:induction false} ScanEncode(ps: seq<Point>)
    ensures Scan(Encode(ps)) == ScanOutcome(ps, EndOfInput)
  {
    if ps != [] {
      var ts := Encode(ps);
      ScanEncode(ps[1..]);
      assert ts[3..] == Encode(ps[1..]);
      assert [ps[0]] + ps[1..] == ps;
    }
  }

  /** Loading a file that holds the encoding of a non-empty point sequence
      yields that sequence. */
  lemma LoadEncode(size: nat, ps: seq<Point>)
    requires |ps| > 0
    ensures Load(Readable(size, Encode(ps))) == LoadOk(ps)
  {
    var ts := Encode(ps);
    ScanEncode(ps);
    LoadAfterEndOfInput(size, ts);
  }

  /** A scan that reaches the end of input after at least one point loads
      exactly those points. */
  lemma LoadAfterEndOfInput(size: nat, ts: seq<Token>)
    requires Scan(ts).stop == EndOfInput && |Scan(ts).accepted| > 0
    ensures Load(Readable(size, ts)) == LoadOk(Scan(ts).accepted)
  {
  }

  /** One trailing number after a complete triple is a format error, and the
      point read before it stays accepted. */
  lemma TrailingNumberExample()
    ensures var ts := [Num(1.0), Num(2.0), Num(3.0), Num(4.0)];
      && Scan(ts) == ScanOutcome([Point(1.0, 2.0, 3.0)], StoppedBy(FormatError))
      && Load(Readable(8, ts)) == LoadErr(FormatError)
  {
    var ts := [Num(1.0), Num(2.0), Num(3.0), Num(4.0)];
    assert ts[3..] == [Num(4.0)];
  }

  /** A NaN among three converted fields is a value error. */
  lemma NaNExample()
    ensures Load(Readable(12, [Num(1.0), NaN, Num(3.0)])) == LoadErr(ValueError)
  {
  }
}
