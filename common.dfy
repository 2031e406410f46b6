/**
 * Helpers shared by the packages: `flatten`, the strings.conf message
 * templates (parsing and instantiation) and the `prettyBuffer` hex dump with
 * its "buffer (n):" header.
 */
module Common {
  import opened Wrappers
  import opened JsText
  import HexDump

  // ---------------------------------------------------------------- flatten

  /** `nested.reduce((acc, val) => acc.concat(val), [])`, a left fold. */
  function Flatten<T>(nested: seq<seq<T>>): seq<T>
  {
    if nested == [] then [] else Flatten(nested[..|nested| - 1]) + nested[|nested| - 1]
  }

  function TotalLength<T>(nested: seq<seq<T>>): nat
  {
    if nested == [] then 0 else |nested[0]| + TotalLength(nested[1..])
  }

  lemma {:induction false} FlattenAppend<T>(a: seq<seq<T>>, b: seq<seq<T>>)
    ensures Flatten(a + b) == Flatten(a) + Flatten(b)
    decreases |b|
  {
    if b == [] {
      assert a + b == a;
    } else {
      var b' := b[..|b| - 1];
      InitOfAppend(a, b);
      FlattenAppend(a, b');
      assert (a + b)[|a + b| - 1] == b[|b| - 1];
    }
  }

  lemma InitOfAppend<T>(a: seq<T>, b: seq<T>)
    requires b != []
    ensures (a + b)[..|a + b| - 1] == a + b[..|b| - 1]
  {
  }

  /** Flattening is in-order concatenation: the first list, then the flattening of the rest. */
  lemma {:induction false} FlattenCons<T>(nested: seq<seq<T>>)
    requires nested != []
    ensures Flatten(nested) == nested[0] + Flatten(nested[1..])
  {
    assert nested == [nested[0]] + nested[1..];
    FlattenAppend([nested[0]], nested[1..]);
    assert Flatten([nested[0]]) == Flatten([]) + nested[0];
  }

  /** The flattened length is the sum of the inner lengths. */
  lemma {:induction false} FlattenLength<T>(nested: seq<seq<T>>)
    ensures |Flatten(nested)| == TotalLength(nested)
    decreases |nested|
  {
    if nested != [] {
      FlattenCons(nested);
      FlattenLength(nested[1..]);
    }
  }

  // ------------------------------------------------------- message templates

  datatype Segment = Literal(value: string) | Placeholder(index: nat, specifier: string)

  /** A parsed strings.conf line. `id` is None where `parseInt` gives NaN. */
  datatype MessageTemplate = MessageTemplate(
    category: string, id: Option<int>, rawId: string, rawText: string,
    segments: seq<Segment>, placeholders: seq<string>)

  /** An instantiation argument: a string, a number, or `undefined`. */
  datatype Arg = ArgStr(s: string) | ArgNum(n: int) | ArgUndefined

  /** Length of the delimiter `%ls`, `%d` or `%X` that starts `s`, or 0. */
  function DelimiterAt(s: string): (d: nat)
    ensures d <= |s|
    ensures d > 0 ==> s[..d] == "%ls" || s[..d] == "%d" || s[..d] == "%X"
  {
    if |s| >= 3 && s[..3] == "%ls" then 3
    else if |s| >= 2 && (s[..2] == "%d" || s[..2] == "%X") then 2
    else 0
  }

  predicate IsDelimiter(t: string)
  {
    t == "%ls" || t == "%d" || t == "%X"
  }

  /**
   * `text.split(/(%ls|%d|%X)/)`: the texts between delimiters, with each
   * captured delimiter between its neighbours.
   */
  function Tokens(text: string): (r: seq<string>)
    ensures |r| % 2 == 1
    decreases |text|
  {
    if text == [] then [""]
    else
      var d := DelimiterAt(text);
      if d > 0 then ["", text[..d]] + Tokens(text[d..])
      else
        var rest := Tokens(text[1..]);
        [[text[0]] + rest[0]] + rest[1..]
  }

  /** The tokens alternate: texts at even positions, delimiters at odd ones. */
  lemma {:induction false} TokensAlternate(text: string)
    ensures forall k :: 0 <= k < |Tokens(text)| && k % 2 == 1 ==> IsDelimiter(Tokens(text)[k])
    decreases |text|
  {
    if text != [] {
      var d := DelimiterAt(text);
      if d > 0 {
        TokensAlternate(text[d..]);
        var r := Tokens(text);
        assert r == ["", text[..d]] + Tokens(text[d..]);
        forall k | 0 <= k < |r| && k % 2 == 1 ensures IsDelimiter(r[k]) {
          if k > 1 { assert r[k] == Tokens(text[d..])[k - 2]; }
        }
      } else {
        TokensAlternate(text[1..]);
      }
    }
  }

  /** Concatenating the tokens gives the text back. */
  lemma {:induction false} TokensConcat(text: string)
    ensures Concat(Tokens(text)) == text
    decreases |text|, 1
  {
    if text != [] {
      if DelimiterAt(text) > 0 {
        DelimiterConcat(text);
      } else {
        LetterConcat(text);
      }
    }
  }

  /** The case of `TokensConcat` where the text starts with a delimiter. */
  lemma {:induction false} DelimiterConcat(text: string)
    requires DelimiterAt(text) > 0
    ensures Concat(Tokens(text)) == text
    decreases |text|, 0
  {
    var d := DelimiterAt(text);
    var rest := Tokens(text[d..]);
    TokensConcat(text[d..]);
    assert Tokens(text) == [""] + ([text[..d]] + rest);
    ConcatCons("", [text[..d]] + rest);
    ConcatCons(text[..d], rest);
    assert text == text[..d] + text[d..];
  }

  /** The case of `TokensConcat` where the text starts with a character that is not a delimiter. */
  lemma {:induction false} LetterConcat(text: string)
    requires text != [] && DelimiterAt(text) == 0
    ensures Concat(Tokens(text)) == text
    decreases |text|, 0
  {
    var rest := Tokens(text[1..]);
    TokensConcat(text[1..]);
    assert Tokens(text) == [[text[0]] + rest[0]] + rest[1..];
    ConcatCons([text[0]] + rest[0], rest[1..]);
    ConcatCons(rest[0], rest[1..]);
    assert rest == [rest[0]] + rest[1..];
    assert ([text[0]] + rest[0]) + Concat(rest[1..]) == [text[0]] + (rest[0] + Concat(rest[1..]));
    assert text == [text[0]] + text[1..];
  }

  lemma ConcatCons(first: string, rest: seq<string>)
    ensures Concat([first] + rest) == first + Concat(rest)
  {
    assert ([first] + rest)[1..] == rest;
  }

  function SegmentFor(token: string, next: nat): Segment
  {
    if StartsWith(token, "%") then Placeholder(next, token) else Literal(token)
  }

  /** Number of tokens that start with '%'. */
  function PlaceholderCount(tokens: seq<string>): nat
  {
    if tokens == [] then 0
    else PlaceholderCount(tokens[..|tokens| - 1]) + (if StartsWith(tokens[|tokens| - 1], "%") then 1 else 0)
  }

  /** The segments `parseSegments` builds from a list of tokens. */
  function SegmentsOf(tokens: seq<string>): (r: seq<Segment>)
    ensures |r| == |tokens|
  {
    if tokens == [] then []
    else
      var init := tokens[..|tokens| - 1];
      SegmentsOf(init) + [SegmentFor(tokens[|tokens| - 1], PlaceholderCount(init))]
  }

  /** Specifiers of the placeholder segments, in order. */
  function Specifiers(segments: seq<Segment>): seq<string>
  {
    if segments == [] then []
    else
      Specifiers(segments[..|segments| - 1])
      + (match segments[|segments| - 1]
         case Placeholder(_, spec) => [spec]
         case Literal(_) => [])
  }

  /** What a segment reads as when each placeholder stands for its own specifier. */
  function SegmentText(s: Segment): string
  {
    match s
    case Literal(v) => v
    case Placeholder(_, spec) => spec
  }

  function SegmentsText(segments: seq<Segment>): string
  {
    if segments == [] then "" else SegmentsText(segments[..|segments| - 1]) + SegmentText(segments[|segments| - 1])
  }

  /**
   * Segment `k` is a placeholder exactly when token `k` starts with '%'; its
   * index is the number of placeholders before it and its specifier the token.
   */
  lemma {:induction false} SegmentsOfAt(tokens: seq<string>, k: nat)
    requires k < |tokens|
    ensures SegmentsOf(tokens)[k] == SegmentFor(tokens[k], PlaceholderCount(tokens[..k]))
    decreases |tokens|
  {
    var init := tokens[..|tokens| - 1];
    if k < |tokens| - 1 {
      SegmentsOfAt(init, k);
      assert init[..k] == tokens[..k];
    } else {
      assert init == tokens[..k];
    }
  }

  /** Placeholder indices count up 0, 1, 2, ... */
  lemma {:induction false} PlaceholderIndicesCount(tokens: seq<string>, k: nat)
    requires k < |tokens| && SegmentsOf(tokens)[k].Placeholder?
    ensures SegmentsOf(tokens)[k].index == PlaceholderCount(tokens[..k])
    ensures SegmentsOf(tokens)[k].index < PlaceholderCount(tokens)
    ensures forall j :: k < j < |tokens| && SegmentsOf(tokens)[j].Placeholder? ==>
      SegmentsOf(tokens)[k].index < SegmentsOf(tokens)[j].index
  {
    SegmentsOfAt(tokens, k);
    assert StartsWith(tokens[k], "%");
    PlaceholderCountGrows(tokens, k, |tokens|);
    assert tokens[..|tokens|] == tokens;
    forall j | k < j < |tokens| && SegmentsOf(tokens)[j].Placeholder?
      ensures SegmentsOf(tokens)[k].index < SegmentsOf(tokens)[j].index
    {
      SegmentsOfAt(tokens, j);
      PlaceholderCountGrows(tokens, k, j);
    }
  }

  /** A '%' token at `k` makes every later prefix count it. */
  lemma {:induction false} PlaceholderCountGrows(tokens: seq<string>, k: nat, j: nat)
    requires k < j <= |tokens| && StartsWith(tokens[k], "%")
    ensures PlaceholderCount(tokens[..k]) < PlaceholderCount(tokens[..j])
    decreases j
  {
    var p := tokens[..j];
    assert p[..|p| - 1] == tokens[..j - 1];
    if j - 1 == k {
      assert p[|p| - 1] == tokens[k];
    } else {
      PlaceholderCountGrows(tokens, k, j - 1);
    }
  }

  /** Reading the segments back, placeholders as their specifiers, gives the tokens' concatenation. */
  lemma {:induction false} SegmentsTextOf(tokens: seq<string>)
    ensures SegmentsText(SegmentsOf(tokens)) == ConcatLeft(tokens)
    decreases |tokens|
  {
    if tokens != [] {
      var init := tokens[..|tokens| - 1];
      SegmentsTextOf(init);
      var s := SegmentsOf(tokens);
      assert s[..|s| - 1] == SegmentsOf(init);
    }
  }

  /** `join('')` written as a left fold, to match the segment order. */
  function ConcatLeft(parts: seq<string>): string
  {
    if parts == [] then "" else ConcatLeft(parts[..|parts| - 1]) + parts[|parts| - 1]
  }

  lemma {:induction false} ConcatLeftIsConcat(parts: seq<string>)
    ensures ConcatLeft(parts) == Concat(parts)
    decreases |parts|
  {
    if parts != [] {
      var init := parts[..|parts| - 1];
      ConcatLeftIsConcat(init);
      assert parts == init + [parts[|parts| - 1]];
      ConcatAppend(init, [parts[|parts| - 1]]);
      assert Concat([parts[|parts| - 1]]) == parts[|parts| - 1] + Concat([]);
    }
  }

  /** Round trip: the parsed segments of a text read back as the text. */
  lemma SegmentsRoundTrip(text: string)
    ensures SegmentsText(SegmentsOf(Tokens(text))) == text
  {
    SegmentsTextOf(Tokens(text));
    ConcatLeftIsConcat(Tokens(text));
    TokensConcat(text);
  }

  /**
   * `parseSegments`: split the text on the delimiters and turn every token
   * starting with '%' into a numbered placeholder, the others into literals.
   */
  method ParseSegments(text: string) returns (segments: seq<Segment>, placeholders: seq<string>)
    ensures segments == SegmentsOf(Tokens(text))
    ensures placeholders == Specifiers(segments)
    ensures SegmentsText(segments) == text
  {
    var tokens := Tokens(text);
    segments := [];
    var index := 0;
    var i := 0;
    while i < |tokens|
      invariant 0 <= i <= |tokens|
      invariant segments == SegmentsOf(tokens[..i])
      invariant index == PlaceholderCount(tokens[..i])
    {
      var token := tokens[i];
      assert tokens[..i + 1][..i] == tokens[..i];
      if StartsWith(token, "%") {
        segments := segments + [Placeholder(index, token)];
        index := index + 1;
      } else {
        segments := segments + [Literal(token)];
      }
      i := i + 1;
    }
    assert tokens[..i] == tokens;
    placeholders := [];
    var j := 0;
    while j < |segments|
      invariant 0 <= j <= |segments|
      invariant placeholders == Specifiers(segments[..j])
    {
      assert segments[..j + 1][..j] == segments[..j];
      if segments[j].Placeholder? {
        placeholders := placeholders + [segments[j].specifier];
      }
      j := j + 1;
    }
    assert segments[..j] == segments;
    SegmentsRoundTrip(text);
  }

  /** `args[segment.index]` for a placeholder, the value for a literal. */
  function Piece(segment: Segment, args: seq<Arg>): Arg
  {
    match segment
    case Literal(v) => ArgStr(v)
    case Placeholder(i, _) => if i < |args| then args[i] else ArgUndefined
  }

  /** JavaScript truthiness of an argument. */
  predicate Truthy(a: Arg)
  {
    match a
    case ArgStr(s) => s != ""
    case ArgNum(n) => n != 0
    case ArgUndefined => false
  }

  /** How `join('')` writes a (truthy) piece. */
  function ArgText(a: Arg): string
  {
    match a
    case ArgStr(s) => s
    case ArgNum(n) => IntToString(n)
    case ArgUndefined => ""
  }

  function PiecesText(segments: seq<Segment>, args: seq<Arg>): string
  {
    if segments == [] then "" else PiecesText(segments[..|segments| - 1], args) + ArgText(Piece(segments[|segments| - 1], args))
  }

  /**
   * `instantiate`: the segments with every placeholder replaced by its
   * argument; an error when any resulting piece is falsy.
   */
  function Instantiate(mt: MessageTemplate, args: seq<Arg>): (r: Result<string>)
    ensures r.Err? <==> exists k :: 0 <= k < |mt.segments| && !Truthy(Piece(mt.segments[k], args))
  {
    if exists k :: 0 <= k < |mt.segments| && !Truthy(Piece(mt.segments[k], args)) then
      Err("Insufficient instantiation arguments.")
    else
      Ok(PiecesText(mt.segments, args))
  }

  /** Arguments that spell each placeholder as its own specifier. */
  function SelfArgs(segments: seq<Segment>): seq<Arg>
  {
    var specs := Specifiers(segments);
    seq(|specs|, i requires 0 <= i < |specs| => ArgStr(specs[i]))
  }

  // auxiliary facts on the segment lists that come from a text

  /** The placeholders' specifiers, in order, are the tokens that start with '%'. */
  lemma {:induction false} SpecifiersCount(tokens: seq<string>)
    ensures |Specifiers(SegmentsOf(tokens))| == PlaceholderCount(tokens)
    decreases |tokens|
  {
    if tokens != [] {
      var init := tokens[..|tokens| - 1];
      SpecifiersCount(init);
      var s := SegmentsOf(tokens);
      assert s[..|s| - 1] == SegmentsOf(init);
    }
  }

  lemma {:induction false} SpecifierOfToken(tokens: seq<string>, k: nat)
    requires k < |tokens| && StartsWith(tokens[k], "%")
    ensures PlaceholderCount(tokens[..k]) < |Specifiers(SegmentsOf(tokens))|
    ensures Specifiers(SegmentsOf(tokens))[PlaceholderCount(tokens[..k])] == tokens[k]
    decreases |tokens|
  {
    var init := tokens[..|tokens| - 1];
    var s := SegmentsOf(tokens);
    assert s[..|s| - 1] == SegmentsOf(init);
    SpecifiersCount(init);
    if k < |tokens| - 1 {
      SpecifierOfToken(init, k);
      assert init[..k] == tokens[..k];
    } else {
      assert init == tokens[..k];
    }
  }

  /**
   * Instantiating a template parsed from `text`, giving each placeholder its
   * own specifier, gives `text` back, provided no piece is empty.
   */
  lemma InstantiateRoundTrip(text: string)
    requires forall k :: 0 <= k < |Tokens(text)| ==> Tokens(text)[k] != ""
    ensures var segs := SegmentsOf(Tokens(text));
      Instantiate(MessageTemplate("system", None, "", text, segs, Specifiers(segs)), SelfArgs(segs)) == Ok(text)
  {
    var tokens := Tokens(text);
    var segs := SegmentsOf(tokens);
    var args := SelfArgs(segs);
    forall k | 0 <= k < |segs| ensures Piece(segs[k], args) == ArgStr(SegmentText(segs[k])) {
      PieceOfSelfArgs(tokens, k);
    }
    forall k | 0 <= k < |segs| ensures Truthy(Piece(segs[k], args)) {
      SegmentsOfAt(tokens, k);
    }
    PiecesAreTexts(segs, args);
    SegmentsRoundTrip(text);
  }

  lemma PieceOfSelfArgs(tokens: seq<string>, k: nat)
    requires k < |tokens|
    ensures Piece(SegmentsOf(tokens)[k], SelfArgs(SegmentsOf(tokens))) == ArgStr(SegmentText(SegmentsOf(tokens)[k]))
  {
    var segs := SegmentsOf(tokens);
    SegmentsOfAt(tokens, k);
    if StartsWith(tokens[k], "%") {
      SpecifierOfToken(tokens, k);
      var i := PlaceholderCount(tokens[..k]);
      var specs := Specifiers(segs);
      var args := SelfArgs(segs);
      assert segs[k] == Placeholder(i, tokens[k]);
      assert i < |args| && args[i] == ArgStr(specs[i]);
      assert specs[i] == tokens[k];
    } else {
      assert segs[k] == Literal(tokens[k]);
    }
  }

  lemma {:induction false} PiecesAreTexts(segs: seq<Segment>, args: seq<Arg>)
    requires forall k :: 0 <= k < |segs| ==> Piece(segs[k], args) == ArgStr(SegmentText(segs[k]))
    ensures PiecesText(segs, args) == SegmentsText(segs)
    decreases |segs|
  {
    if segs != [] {
      PiecesAreTexts(segs[..|segs| - 1], args);
    }
  }

  /**
   * A text that starts with a delimiter splits into an empty first literal,
   * so its template never instantiates, whatever the arguments.
   */
  lemma LeadingPlaceholderNeverInstantiates(text: string, args: seq<Arg>)
    requires DelimiterAt(text) > 0
    ensures var segs := SegmentsOf(Tokens(text));
      Instantiate(MessageTemplate("system", None, "", text, segs, Specifiers(segs)), args).Err?
  {
    var tokens := Tokens(text);
    assert tokens[0] == "";
    SegmentsOfAt(tokens, 0);
    assert !Truthy(Piece(SegmentsOf(tokens)[0], args));
  }

  // ------------------------------------------------------ strings.conf lines

  /**
   * `doParseMessageTemplate`: the first word is the category, the second the
   * raw id, the rest, rejoined with single spaces, the text. A line without a
   * space has no second word, and reading it throws.
   */
  function ParseTemplateLine(line: string): (r: Result<MessageTemplate>)
    ensures r.Err? <==> ' ' !in line
  {
    var words := SplitOn(line, ' ');
    SplitOnParts(line, ' ');
    SplitOnJoin(line, ' ');
    if |words| < 2 then Err("TypeError: Cannot read properties of undefined (reading 'startsWith')")
    else
      var rawId := words[1];
      var rawText := Join(words[2..], " ");
      var id := if StartsWith(rawId, "0x") || StartsWith(rawId, "0X") then ParseInt(rawId, 16) else ParseInt(rawId, 10);
      var segments := SegmentsOf(Tokens(rawText));
      Ok(MessageTemplate(words[0], id, rawId, rawText, segments, Specifiers(segments)))
  }

  lemma {:induction false} SplitOnWord(word: string, rest: string, sep: char)
    requires sep !in word
    ensures SplitOn(word + [sep] + rest, sep) == [word] + SplitOn(rest, sep)
    decreases |word|
  {
    if word == [] {
      assert word + [sep] + rest == [sep] + rest;
      assert ([sep] + rest)[1..] == rest;
    } else {
      SplitOnWord(word[1..], rest, sep);
      assert (word + [sep] + rest)[1..] == word[1..] + [sep] + rest;
      assert [word[0]] + word[1..] == word;
    }
  }

  lemma IntToStringNoHexPrefix(n: int)
    ensures !StartsWith(IntToString(n), "0x") && !StartsWith(IntToString(n), "0X")
  {
    var m: nat := if n < 0 then -n else n;
    NatToStringDigits(m, 10);
    var d := NatToString(m, 10);
    var s := IntToString(n);
    if n < 0 {
      assert s[0] == '-';
      assert |s| >= 2 ==> s[..2][0] != "0x"[0];
    } else if |d| >= 2 {
      assert IsDigit(d[1], 10);
      assert s[..2][1] == d[1];
      assert s[..2][1] != "0x"[1] && s[..2][1] != "0X"[1];
    }
  }

  /** A decimal numeral holds no space. */
  lemma IntToStringNoSpace(n: int)
    ensures ' ' !in IntToString(n)
  {
    var m: nat := if n < 0 then -n else n;
    NatToStringDigits(m, 10);
    var d := NatToString(m, 10);
    var s := IntToString(n);
    forall i | 0 <= i < |s| ensures s[i] != ' ' {
      if n < 0 {
        if i > 0 { assert s[i] == d[i - 1]; assert IsDigit(d[i - 1], 10); }
      } else {
        assert IsDigit(d[i], 10);
      }
    }
  }

  /**
   * Round trip: a line written as category, decimal id and text, separated by
   * single spaces, parses back to that category, id and text.
   */
  lemma ParseTemplateLineRoundTrip(category: string, id: int, text: string)
    requires ' ' !in category
    ensures var r := ParseTemplateLine(category + " " + IntToString(id) + " " + text);
      r.Ok? && r.value.category == category && r.value.id == Some(id) && r.value.rawText == text
      && r.value.rawId == IntToString(id) && SegmentsText(r.value.segments) == text
  {
    var rawId := IntToString(id);
    IntToStringNoSpace(id);
    var line := category + " " + IntToString(id) + " " + text;
    assert line == category + [' '] + (rawId + [' '] + text);
    SplitOnWord(category, rawId + [' '] + text, ' ');
    SplitOnWord(rawId, text, ' ');
    var words := SplitOn(line, ' ');
    assert words == [category] + ([rawId] + SplitOn(text, ' '));
    assert words[2..] == SplitOn(text, ' ');
    SplitOnJoin(text, ' ');
    assert words[0] == category && words[1] == rawId && Join(words[2..], " ") == text;
    IntToStringNoHexPrefix(id);
    ParseIntOfToString(id);
    var segments := SegmentsOf(Tokens(text));
    assert ParseTemplateLine(line) == Ok(MessageTemplate(category, Some(id), rawId, text, segments, Specifiers(segments)));
    SegmentsRoundTrip(text);
  }

  /** The lines `doParseStrings` keeps: trimmed, starting with '!', with the '!' cut. */
  function KeptLines(lines: seq<string>): seq<string>
  {
    if lines == [] then []
    else
      var t := Trim(lines[0]);
      (if StartsWith(t, "!") then [t[1..]] else []) + KeptLines(lines[1..])
  }

  /** `line` is kept as `x`: trimmed, it starts with '!' and `x` is what follows. */
  predicate Keeps(line: string, x: string)
  {
    StartsWith(Trim(line), "!") && x == Trim(line)[1..]
  }

  /** A kept line is exactly the trimmed text after the '!' of some line that starts with it. */
  lemma {:induction false} KeptLinesMembers(lines: seq<string>, x: string)
    ensures x in KeptLines(lines) <==> exists i :: 0 <= i < |lines| && Keeps(lines[i], x)
    decreases |lines|
  {
    if lines != [] {
      KeptLinesMembers(lines[1..], x);
      KeptLinesHead(lines, x);
      if x in KeptLines(lines) && !Keeps(lines[0], x) {
        var i :| 0 <= i < |lines[1..]| && Keeps(lines[1..][i], x);
        assert lines[i + 1] == lines[1..][i];
      }
      if exists i :: 0 <= i < |lines| && Keeps(lines[i], x) {
        var i :| 0 <= i < |lines| && Keeps(lines[i], x);
        if i > 0 {
          assert lines[1..][i - 1] == lines[i];
        }
      }
    }
  }

  /** The kept lines are the first line if it is kept, then the kept lines of the rest. */
  lemma KeptLinesHead(lines: seq<string>, x: string)
    requires lines != []
    ensures x in KeptLines(lines) <==> Keeps(lines[0], x) || x in KeptLines(lines[1..])
  {
  }

  /** Parses every line in order; the first line that throws decides the error. */
  function ParseAll(lines: seq<string>): (r: Result<seq<MessageTemplate>>)
    ensures r.Ok? ==> |r.value| == |lines|
    ensures r.Ok? ==> forall k :: 0 <= k < |lines| ==> ParseTemplateLine(lines[k]) == Ok(r.value[k])
    ensures r.Err? <==> exists k :: 0 <= k < |lines| && ' ' !in lines[k]
  {
    if lines == [] then Ok([])
    else
      match ParseTemplateLine(lines[0])
      case Err(e) => Err(e)
      case Ok(t) =>
        var rest := ParseAll(lines[1..]);
        assert forall k :: 1 <= k < |lines| ==> lines[k] == lines[1..][k - 1];
        match rest
        case Err(e) =>
          assert exists k :: 0 <= k < |lines[1..]| && ' ' !in lines[1..][k];
          Err(e)
        case Ok(ts) => Ok([t] + ts)
  }

  /** `doParseStrings`. */
  function ParseStrings(lines: seq<string>): Result<seq<MessageTemplate>>
  {
    ParseAll(KeptLines(lines))
  }

  /** `parseMessageTemplates`: one template per '!' line of the content. */
  function ParseMessageTemplates(content: string): Result<seq<MessageTemplate>>
  {
    ParseStrings(SplitOn(content, '\n'))
  }

  // ------------------------------------------------------------- hex dump

  function DumpHeader(n: nat): string
  {
    "buffer (" + IntToString(n) + "):"
  }

  /** `prettyBuffer`: the header line, then the sixteen-byte lines. */
  method PrettyBuffer(buffer: seq<HexDump.byte>, every: int, width: int) returns (lines: seq<string>)
    ensures lines == [DumpHeader(|buffer|)] + HexDump.Lines(HexDump.BlankGroups, buffer, every, width)
    ensures |lines| == 1 + HexDump.LineCount(|buffer|)
  {
    var dump := HexDump.DumpLines(HexDump.BlankGroups, buffer, every, width);
    lines := [DumpHeader(|buffer|)] + dump;
  }
}
