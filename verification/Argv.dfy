/** Quoting an argument list for a shell, and reading it back (internal/console/verbose.go). The quoting is that of IEEE Std
    1003.1-2017, Shell Command Language, sections 2.2.1 (escape character) and 2.2.2 (single-quotes). */
module Argv {
  import opened Wrappers

  type Byte = b: nat | b < 256

  type Bytes = seq<Byte>

  const QUOTE: Byte := 39
  const BACKSLASH: Byte := 92
  const SPACE: Byte := 32
  const TAB: Byte := 9

  datatype Failure = EndsInBackslash | UnterminatedQuote

  datatype Result<+T> = Ok(value: T) | Err(failure: Failure)

  predicate Blank(c: Byte) { c == SPACE || c == TAB }

  /** Letters, digits and `@%+=:,./-_`: what never needs quoting. */
  predicate Literal(c: Byte) {
    || 97 <= c <= 122 || 65 <= c <= 90 || 48 <= c <= 57
    || c in {64, 37, 43, 61, 58, 44, 46, 47, 45, 95}
  }

  // ----- quoting

  function Escaped(arg: Bytes): Bytes {
    if arg == [] then []
    else (if arg[0] == QUOTE then [QUOTE, BACKSLASH, QUOTE, QUOTE] else [arg[0]]) + Escaped(arg[1..])
  }

  function ShellQuote(arg: Bytes): Bytes {
    if arg == [] then [QUOTE, QUOTE]
    else if forall c :: c in arg ==> Literal(c) then arg
    else [QUOTE] + Escaped(arg) + [QUOTE]
  }

  /** What is safe in a shell, by its characters. */
  predicate Safe(c: char) {
    'a' <= c <= 'z' || 'A' <= c <= 'Z' || '0' <= c <= '9' || c in ['@', '%', '+', '=', ':', ',', '.', '/', '-', '_']
  }

  /** An argument goes without quotes exactly when it is not empty and all of its characters are safe. */
  lemma QuotedOnlyWhenNeeded(arg: Bytes)
    ensures ShellQuote(arg) == arg <==> arg != [] && forall c :: c in arg ==> Safe(c as char)
  {
    forall c | c in arg ensures Literal(c) <==> Safe(c as char) {}
    if arg != [] && !forall c :: c in arg ==> Literal(c) { EscapedGrows(arg); }
  }

  lemma {:induction false} EscapedGrows(arg: Bytes)
    ensures |Escaped(arg)| >= |arg|
  {
    if arg != [] { EscapedGrows(arg[1..]); }
  }

  function QuoteArgv(argv: seq<Bytes>): Bytes {
    if argv == [] then []
    else if |argv| == 1 then ShellQuote(argv[0])
    else ShellQuote(argv[0]) + [SPACE] + QuoteArgv(argv[1..])
  }

  // ----- unquoting

  /** Where the reader stands in a line. */
  datatype Reader = Reader(argv: seq<Bytes>, word: Bytes, started: bool, quoted: bool)

  function Closed(r: Reader): Reader {
    if r.started then Reader(r.argv + [r.word], [], false, r.quoted) else r
  }

  function Added(r: Reader, c: Byte): Reader { r.(word := r.word + [c], started := true) }

  function Read(line: Bytes, r: Reader): Result<seq<Bytes>>
    decreases |line|
  {
    if line == [] then if r.quoted then Err(UnterminatedQuote) else Ok(Closed(r).argv)
    else
      var c, rest := line[0], line[1..];
      if r.quoted then Read(rest, if c == QUOTE then r.(quoted := false) else r.(word := r.word + [c]))
      else if c == QUOTE then Read(rest, r.(quoted := true, started := true))
      else if c == BACKSLASH then if rest == [] then Err(EndsInBackslash) else Read(rest[1..], Added(r, rest[0]))
      else if Blank(c) then Read(rest, Closed(r))
      else Read(rest, Added(r, c))
  }

  const FRESH := Reader([], [], false, false)

  method UnquoteArgv(line: Bytes) returns (r: Result<seq<Bytes>>)
    ensures r == Read(line, FRESH)
  {
    var argv: seq<Bytes>, word: Bytes := [], [];
    var started, quoted := false, false;
    var i := 0;
    assert line[0..] == line;
    while i < |line|
      invariant i <= |line|
      invariant Read(line, FRESH) == Read(line[i..], Reader(argv, word, started, quoted))
    {
      var c := line[i];
      assert line[i..][1..] == line[i + 1..];
      if quoted && c == QUOTE {
        quoted := false;
      } else if quoted {
        word := word + [c];
      } else if c == QUOTE {
        quoted, started := true, true;
      } else if c == BACKSLASH {
        i := i + 1;
        if i == |line| { return Err(EndsInBackslash); }
        assert line[i..][1..] == line[i + 1..];
        word, started := word + [line[i]], true;
      } else if Blank(c) {
        if started {
          argv, word, started := argv + [word], [], false;
        }
      } else {
        word, started := word + [c], true;
      }
      i := i + 1;
    }
    if quoted { return Err(UnterminatedQuote); }
    if started { argv := argv + [word]; }
    r := Ok(argv);
  }

  // ----- the shell's own reading

  /** Up to the closing quote: every character keeps its literal value (section 2.2.2). */
  function QuotedString(s: Bytes): Option<(Bytes, Bytes)> {
    if s == [] then None
    else if s[0] == QUOTE then Some(([], s[1..]))
    else
      var more := QuotedString(s[1..]);
      if more.None? then None else Some(([s[0]] + more.value.0, more.value.1))
  }

  lemma {:induction false} QuotedShrinks(s: Bytes)
    ensures QuotedString(s).Some? ==> |QuotedString(s).value.1| < |s|
  {
    if s != [] && s[0] != QUOTE { QuotedShrinks(s[1..]); }
  }

  /** One word: quoted strings, characters preserved by a backslash (section 2.2.1; a newline would not be), and characters
      that are literal as they stand. Anything else is not a plain word of the shell. */
  function Word(s: Bytes): Option<(Bytes, Bytes)>
    decreases |s|
  {
    if s == [] || Blank(s[0]) then Some(([], s))
    else if s[0] == QUOTE then
      var q := QuotedString(s[1..]);
      QuotedShrinks(s[1..]);
      if q.None? then None
      else
        var more := Word(q.value.1);
        if more.None? then None else Some((q.value.0 + more.value.0, more.value.1))
    else if s[0] == BACKSLASH then
      if |s| < 2 || s[1] == 10 then None
      else
        var more := Word(s[2..]);
        if more.None? then None else Some(([s[1]] + more.value.0, more.value.1))
    else if !Literal(s[0]) then None
    else
      var more := Word(s[1..]);
      if more.None? then None else Some(([s[0]] + more.value.0, more.value.1))
  }

  lemma {:induction false} WordShrinks(s: Bytes)
    ensures Word(s).Some? ==> |Word(s).value.1| <= |s| && (s != [] && !Blank(s[0]) ==> |Word(s).value.1| < |s|)
    ensures Word(s).Some? ==> Word(s).value.1 == [] || Blank(Word(s).value.1[0])
    decreases |s|
  {
    if s != [] && !Blank(s[0]) {
      if s[0] == QUOTE {
        QuotedShrinks(s[1..]);
        var q := QuotedString(s[1..]);
        if q.Some? { WordShrinks(q.value.1); }
      } else if s[0] == BACKSLASH {
        if |s| >= 2 && s[1] != 10 { WordShrinks(s[2..]); }
      } else if Literal(s[0]) {
        WordShrinks(s[1..]);
      }
    }
  }

  /** The words of a line, or nothing when the line is more to the shell than a list of plain words. */
  function ShellWords(s: Bytes): Option<seq<Bytes>>
    decreases |s|
  {
    if s == [] then Some([])
    else if Blank(s[0]) then ShellWords(s[1..])
    else
      WordShrinks(s);
      var w := Word(s);
      if w.None? then None
      else
        var more := ShellWords(w.value.1);
        if more.None? then None else Some([w.value.0] + more.value)
  }

  // ----- both readings agree

  lemma {:induction false} ReadsQuoted(s: Bytes, r: Reader)
    requires r.quoted && QuotedString(s).Some?
    ensures Read(s, r) == Read(QuotedString(s).value.1, r.(quoted := false, word := r.word + QuotedString(s).value.0))
    decreases |s|
  {
    if s[0] == QUOTE {
      assert r.word + [] == r.word;
    } else {
      ReadsQuoted(s[1..], r.(word := r.word + [s[0]]));
      assert r.word + [s[0]] + QuotedString(s[1..]).value.0 == r.word + ([s[0]] + QuotedString(s[1..]).value.0);
    }
  }

  lemma {:induction false} ReadsWord(s: Bytes, r: Reader)
    requires !r.quoted && Word(s).Some?
    ensures Read(s, r) == Read(Word(s).value.1,
                               r.(word := r.word + Word(s).value.0, started := r.started || (s != [] && !Blank(s[0]))))
    decreases |s|
  {
    hide Literal, Escaped, ShellQuote, QuotedString, Closed;
    if s == [] || Blank(s[0]) {
      assert r.word + [] == r.word;
    } else if s[0] == QUOTE {
      var q := QuotedString(s[1..]);
      QuotedShrinks(s[1..]);
      ReadsQuoted(s[1..], r.(quoted := true, started := true));
      ReadsWord(q.value.1, r.(started := true, word := r.word + q.value.0));
      assert r.word + q.value.0 + Word(q.value.1).value.0 == r.word + Word(s).value.0;
    } else if s[0] == BACKSLASH {
      ReadsWord(s[2..], Added(r, s[1]));
      assert s[1..][1..] == s[2..];
      assert r.word + [s[1]] + Word(s[2..]).value.0 == r.word + Word(s).value.0;
    } else {
      ReadsWord(s[1..], Added(r, s[0]));
      assert r.word + [s[0]] + Word(s[1..]).value.0 == r.word + Word(s).value.0;
    }
  }

  /** Every line that is a list of plain words to the shell is read as the shell reads it. */
  lemma {:induction false} AgreesWithShell(s: Bytes, argv: seq<Bytes>)
    requires ShellWords(s).Some?
    ensures Read(s, Reader(argv, [], false, false)) == Ok(argv + ShellWords(s).value)
    decreases |s|
  {
    if s == [] {
      assert argv + [] == argv;
    } else if Blank(s[0]) {
      AgreesWithShell(s[1..], argv);
    } else {
      WordShrinks(s);
      var w, rest := Word(s).value.0, Word(s).value.1;
      ReadsWord(s, Reader(argv, [], false, false));
      assert [] + w == w;
      if rest == [] {
        assert argv + [w] == argv + ShellWords(s).value;
      } else {
        AgreesWithShell(rest, argv + [w]);
        assert Read(rest, Reader(argv, w, true, false)) == Read(rest[1..], Reader(argv + [w], [], false, false));
        assert Read(rest, Reader(argv + [w], [], false, false)) == Read(rest[1..], Reader(argv + [w], [], false, false));
        assert argv + [w] + ShellWords(rest).value == argv + ([w] + ShellWords(rest).value);
      }
    }
  }

  // ----- the round trip

  predicate EndsWord(rest: Bytes) { rest == [] || Blank(rest[0]) }

  /** One more character inside the quotes. */
  lemma QuotedChar(c: Byte, x: Bytes)
    requires c != QUOTE && Word([QUOTE] + x).Some?
    ensures Word([QUOTE, c] + x).Some?
    ensures Word([QUOTE, c] + x).value == ([c] + Word([QUOTE] + x).value.0, Word([QUOTE] + x).value.1)
  {
    assert ([QUOTE, c] + x)[1..] == [c] + x && ([c] + x)[1..] == x && ([QUOTE] + x)[1..] == x;
    var q := QuotedString(x);
    QuotedShrinks(x);
    var more := Word(q.value.1);
    assert [c] + (q.value.0 + more.value.0) == [c] + q.value.0 + more.value.0;
  }

  /** A quote inside the quotes: close, escape, open again. */
  lemma QuotedQuote(x: Bytes)
    requires Word([QUOTE] + x).Some?
    ensures Word([QUOTE, QUOTE, BACKSLASH, QUOTE, QUOTE] + x).Some?
    ensures Word([QUOTE, QUOTE, BACKSLASH, QUOTE, QUOTE] + x).value
            == ([QUOTE] + Word([QUOTE] + x).value.0, Word([QUOTE] + x).value.1)
  {
    var s, u := [QUOTE, QUOTE, BACKSLASH, QUOTE, QUOTE] + x, [BACKSLASH, QUOTE, QUOTE] + x;
    assert s[1..] == [QUOTE] + u && s[1..][1..] == u && u[2..] == [QUOTE] + x;
    assert QuotedString(s[1..]) == Some(([], u));
    assert Word(u) == Some(([QUOTE] + Word([QUOTE] + x).value.0, Word([QUOTE] + x).value.1));
    assert [] + Word(u).value.0 == Word(u).value.0;
  }

  lemma EmptyQuotes(rest: Bytes)
    requires EndsWord(rest)
    ensures Word([QUOTE, QUOTE] + rest) == Some(([], rest))
  {
    var s := [QUOTE, QUOTE] + rest;
    assert s[1..] == [QUOTE] + rest && s[1..][1..] == rest;
    var none: Bytes := [];
    assert QuotedString(s[1..]) == Some((none, rest)) && Word(rest) == Some((none, rest)) && none + none == none;
  }

  lemma {:induction false} QuotedWord(arg: Bytes, rest: Bytes)
    requires EndsWord(rest)
    ensures Word([QUOTE] + Escaped(arg) + [QUOTE] + rest) == Some((arg, rest))
    decreases |arg|
  {
    hide Word;
    var s := [QUOTE] + Escaped(arg) + [QUOTE] + rest;
    if arg == [] {
      EmptyQuotes(rest);
      assert s == [QUOTE, QUOTE] + rest;
    } else {
      QuotedWord(arg[1..], rest);
      var x := Escaped(arg[1..]) + [QUOTE] + rest;
      assert [QUOTE] + x == [QUOTE] + Escaped(arg[1..]) + [QUOTE] + rest;
      if arg[0] == QUOTE {
        QuotedQuote(x);
        assert s == [QUOTE, QUOTE, BACKSLASH, QUOTE, QUOTE] + x;
      } else {
        QuotedChar(arg[0], x);
        assert s == [QUOTE, arg[0]] + x;
      }
      assert [arg[0]] + arg[1..] == arg;
    }
  }

  lemma {:induction false} LiteralWord(arg: Bytes, rest: Bytes)
    requires EndsWord(rest) && forall c :: c in arg ==> Literal(c)
    ensures Word(arg + rest) == Some((arg, rest))
    decreases |arg|
  {
    if arg == [] {
      assert arg + rest == rest;
    } else {
      LiteralWord(arg[1..], rest);
      assert (arg + rest)[1..] == arg[1..] + rest && Literal((arg + rest)[0]);
      assert [arg[0]] + arg[1..] == arg;
    }
  }

  lemma ShellQuoteWord(arg: Bytes, rest: Bytes)
    requires EndsWord(rest)
    ensures Word(ShellQuote(arg) + rest) == Some((arg, rest))
    ensures ShellQuote(arg) != [] && !Blank(ShellQuote(arg)[0])
  {
    if arg == [] {
      assert Escaped(arg) == [] && ShellQuote(arg) + rest == [QUOTE] + Escaped(arg) + [QUOTE] + rest;
      QuotedWord(arg, rest);
    } else if forall c :: c in arg ==> Literal(c) {
      LiteralWord(arg, rest);
      assert Literal(arg[0]);
    } else {
      QuotedWord(arg, rest);
    }
  }

  lemma FirstWord(s: Bytes, arg: Bytes, rest: Bytes, words: seq<Bytes>)
    requires s != [] && !Blank(s[0]) && Word(s) == Some((arg, rest)) && ShellWords(rest) == Some(words)
    ensures ShellWords(s) == Some([arg] + words)
  {
    WordShrinks(s);
  }

  /** A shell reads the quoted line as the arguments themselves. */
  lemma {:induction false} ShellReadsQuoted(argv: seq<Bytes>)
    ensures ShellWords(QuoteArgv(argv)) == Some(argv)
    decreases |argv|
  {
    hide Word, ShellQuote;
    if |argv| == 1 {
      ShellQuoteWord(argv[0], []);
      assert ShellQuote(argv[0]) + [] == ShellQuote(argv[0]);
      FirstWord(ShellQuote(argv[0]), argv[0], [], []);
      assert [argv[0]] + [] == argv;
    } else if argv != [] {
      ShellReadsQuoted(argv[1..]);
      var rest := [SPACE] + QuoteArgv(argv[1..]);
      assert rest[1..] == QuoteArgv(argv[1..]);
      ShellQuoteWord(argv[0], rest);
      assert QuoteArgv(argv) == ShellQuote(argv[0]) + rest;
      FirstWord(ShellQuote(argv[0]) + rest, argv[0], rest, argv[1..]);
      assert [argv[0]] + argv[1..] == argv;
    }
  }

  /** Unquoting what was quoted gives the arguments back, whatever bytes they hold. */
  lemma RoundTrip(argv: seq<Bytes>)
    ensures Read(QuoteArgv(argv), FRESH) == Ok(argv)
  {
    ShellReadsQuoted(argv);
    AgreesWithShell(QuoteArgv(argv), []);
    assert [] + argv == argv;
  }

  /** Different argument lists have different lines. */
  lemma QuotingIsInjective(a: seq<Bytes>, b: seq<Bytes>)
    requires QuoteArgv(a) == QuoteArgv(b)
    ensures a == b
  {
    RoundTrip(a);
    RoundTrip(b);
  }

  // ----- what every line means

  /** A blank between words, or a part of a word: a byte as it stands, a byte behind a backslash, or a quoted string. */
  datatype Piece = Gap(c: Byte) | Plain(c: Byte) | Escape(c: Byte) | Quoted(bs: Bytes)
  {
    predicate Proper() {
      match this
      case Gap(c) => Blank(c)
      case Plain(c) => !Blank(c) && c != QUOTE && c != BACKSLASH
      case Escape(_) => true
      case Quoted(bs) => QUOTE !in bs
    }

    function Text(): Bytes {
      match this
      case Gap(c) => [c]
      case Plain(c) => [c]
      case Escape(c) => [BACKSLASH, c]
      case Quoted(bs) => [QUOTE] + bs + [QUOTE]
    }

    function Meaning(): Bytes {
      match this
      case Gap(_) => []
      case Plain(c) => [c]
      case Escape(c) => [c]
      case Quoted(bs) => bs
    }
  }

  predicate AllProper(ps: seq<Piece>) { forall p :: p in ps ==> p.Proper() }

  function Line(ps: seq<Piece>): Bytes { if ps == [] then [] else ps[0].Text() + Line(ps[1..]) }

  /** The rest of a word, and what follows it. */
  function WordHere(ps: seq<Piece>): Bytes {
    if ps == [] || ps[0].Gap? then [] else ps[0].Meaning() + WordHere(ps[1..])
  }

  function AfterWord(ps: seq<Piece>): (rest: seq<Piece>)
    ensures |rest| <= |ps|
  {
    if ps == [] || ps[0].Gap? then ps else AfterWord(ps[1..])
  }

  /** The words: maximal runs of pieces between gaps. */
  function Words(ps: seq<Piece>): seq<Bytes>
    decreases |ps|
  {
    if ps == [] then [] else if ps[0].Gap? then Words(ps[1..]) else [WordHere(ps)] + Words(AfterWord(ps[1..]))
  }

  /** The words when the reader has already begun one. */
  function WordsFrom(r: Reader, ps: seq<Piece>): seq<Bytes> {
    r.argv + if r.started then [r.word + WordHere(ps)] + Words(AfterWord(ps)) else Words(ps)
  }

  function Took(p: Piece, r: Reader): Reader {
    if p.Gap? then Closed(r) else r.(word := r.word + p.Meaning(), started := true)
  }

  lemma {:induction false} ReadsString(bs: Bytes, rest: Bytes, r: Reader)
    requires r.quoted && QUOTE !in bs
    ensures Read(bs + [QUOTE] + rest, r) == Read(rest, r.(quoted := false, word := r.word + bs))
    decreases |bs|
  {
    var line := bs + [QUOTE] + rest;
    if bs == [] {
      assert line[1..] == rest && r.word + [] == r.word;
    } else {
      assert line[1..] == bs[1..] + [QUOTE] + rest;
      ReadsString(bs[1..], rest, r.(word := r.word + [bs[0]]));
      assert r.word + [bs[0]] + bs[1..] == r.word + bs;
    }
  }

  lemma ReadsPiece(p: Piece, rest: Bytes, r: Reader)
    requires p.Proper() && !r.quoted
    ensures Read(p.Text() + rest, r) == Read(rest, Took(p, r))
  {
    var line := p.Text() + rest;
    match p
    case Gap(c) => assert line[1..] == rest;
    case Plain(c) => assert line[1..] == rest;
    case Escape(c) => assert line[1..][1..] == rest && line[1..][0] == c;
    case Quoted(bs) =>
      assert line[1..] == bs + [QUOTE] + rest;
      ReadsString(bs, rest, r.(quoted := true, started := true));
  }

  /** How the reader ends on what is left behind the pieces: a whole line, a lone backslash, or an open quote. */
  predicate Tail(tail: Bytes) { tail == [] || tail == [BACKSLASH] || (tail[0] == QUOTE && QUOTE !in tail[1..]) }

  function Ending(tail: Bytes, words: seq<Bytes>): Result<seq<Bytes>> {
    if tail == [] then Ok(words) else if tail == [BACKSLASH] then Err(EndsInBackslash) else Err(UnterminatedQuote)
  }

  lemma {:induction false} OpenQuote(bs: Bytes, r: Reader)
    requires r.quoted && QUOTE !in bs
    ensures Read(bs, r) == Err(UnterminatedQuote)
    decreases |bs|
  {
    if bs != [] { OpenQuote(bs[1..], r.(word := r.word + [bs[0]])); }
  }

  lemma {:induction false} ReadsPieces(ps: seq<Piece>, tail: Bytes, r: Reader)
    requires AllProper(ps) && Tail(tail) && !r.quoted && (!r.started ==> r.word == [])
    ensures Read(Line(ps) + tail, r) == Ending(tail, WordsFrom(r, ps))
    decreases |ps|
  {
    if ps == [] {
      assert Line(ps) + tail == tail;
      ReadsTail(tail, r);
    } else {
      hide Read, WordsFrom, Took, Tail, Ending, Piece.Text, Piece.Proper;
      var p := ps[0];
      assert Line(ps) + tail == p.Text() + (Line(ps[1..]) + tail);
      ReadsPiece(p, Line(ps[1..]) + tail, r);
      TookKeepsWords(ps, r);
      ReadsPieces(ps[1..], tail, Took(p, r));
    }
  }

  lemma ReadsTail(tail: Bytes, r: Reader)
    requires Tail(tail) && !r.quoted
    ensures Read(tail, r) == Ending(tail, WordsFrom(r, []))
  {
    assert r.word + [] == r.word && r.argv + [] == r.argv;
    if tail == [] {
      assert AfterWord([]) == [] && Words([]) == [] && WordHere([]) == [];
      assert r.started ==> WordsFrom(r, []) == r.argv + [r.word];
    } else if tail == [BACKSLASH] {
      assert Read([BACKSLASH], r) == Err(EndsInBackslash);
    } else {
      OpenQuote(tail[1..], r.(quoted := true, started := true));
    }
  }

  lemma TookKeepsWords(ps: seq<Piece>, r: Reader)
    requires ps != [] && !r.quoted && (!r.started ==> r.word == [])
    ensures var q := Took(ps[0], r); !q.quoted && (!q.started ==> q.word == []) && WordsFrom(q, ps[1..]) == WordsFrom(r, ps)
  {
    hide Piece.Meaning;
    var p := ps[0];
    if p.Gap? {
      if r.started {
        assert r.word + [] == r.word && r.argv + [r.word] + Words(ps[1..]) == r.argv + ([r.word] + Words(ps[1..]));
      }
    } else {
      assert r.word + p.Meaning() + WordHere(ps[1..]) == r.word + (p.Meaning() + WordHere(ps[1..]));
      if !r.started { assert r.word + WordHere(ps) == WordHere(ps); }
    }
  }

  /** Main result. Every line is a list of pieces with nothing, a lone backslash or an open quote behind it. The reader gives the
      words of the pieces, or the error that what is behind them stands for. */
  lemma {:induction false} ReadExact(line: Bytes) returns (ps: seq<Piece>, tail: Bytes)
    ensures AllProper(ps) && Tail(tail) && line == Line(ps) + tail
    ensures Read(line, FRESH) == Ending(tail, Words(ps))
  {
    ps, tail := Pieces(line);
    ReadsPieces(ps, tail, FRESH);
    assert [] + Words(ps) == Words(ps);
  }

  lemma {:induction false} Pieces(line: Bytes) returns (ps: seq<Piece>, tail: Bytes)
    ensures AllProper(ps) && Tail(tail) && line == Line(ps) + tail
    decreases |line|
  {
    hide Piece.Proper, Piece.Text, Tail;
    ps, tail := [], line;
    if Tail(line) { return; }
    var p := FirstPiece(line);
    var rest: seq<Piece>;
    rest, tail := Pieces(line[|p.Text()|..]);
    ps := [p] + rest;
    assert line == p.Text() + (Line(rest) + tail);
  }

  lemma FirstPiece(line: Bytes) returns (p: Piece)
    requires !Tail(line)
    ensures p.Proper() && p.Text() <= line && p.Text() != []
  {
    if line[0] == QUOTE {
      var k := FirstQuote(line[1..]);
      p := Quoted(line[1..][..k]);
    } else if line[0] == BACKSLASH {
      p := Escape(line[1]);
    } else {
      p := if Blank(line[0]) then Gap(line[0]) else Plain(line[0]);
    }
  }

  lemma {:induction false} FirstQuote(s: Bytes) returns (k: nat)
    requires QUOTE in s
    ensures k < |s| && s[k] == QUOTE && QUOTE !in s[..k]
    decreases |s|
  {
    if s[0] == QUOTE {
      k := 0;
    } else {
      k := FirstQuote(s[1..]);
      k := k + 1;
      assert s[..k] == [s[0]] + s[1..][..k - 1];
    }
  }
}
