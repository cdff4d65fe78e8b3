/** Command lines as people write them: what the parser of flag_changer.py makes of
    quotes of either kind, escaped quotes and white space. */
module WrittenFlags {
  import opened Flags
  import opened Sequences
  import opened Wrappers

  /** A stretch of text, bare or in quotes. */
  datatype Piece = Bare(text: string) | InQuotes(quote: char, text: string)

  /** A flag as it is written: white space, and pieces right after one another. */
  datatype Word = Word(gap: string, pieces: seq<Piece>)

  function WrittenPiece(p: Piece): string {
    match p
    case Bare(text) => text
    case InQuotes(quote, text) => Quoted(text, quote)
  }

  function Written(pieces: seq<Piece>): string {
    if pieces == [] then "" else Written(pieces[..|pieces| - 1]) + WrittenPiece(pieces[|pieces| - 1])
  }

  function Meant(pieces: seq<Piece>): string {
    if pieces == [] then "" else Meant(pieces[..|pieces| - 1]) + pieces[|pieces| - 1].text
  }

  /** The program name and the words. */
  function Typed(words: seq<Word>): string {
    if words == [] then "_"
    else
      var last := words[|words| - 1];
      Typed(words[..|words| - 1]) + (last.gap + Written(last.pieces))
  }

  /** What the words mean; those that mean nothing, as a pair of quotes, are dropped. */
  function AllMeant(words: seq<Word>): seq<string> {
    if words == [] then []
    else
      var text := Meant(words[|words| - 1].pieces);
      AllMeant(words[..|words| - 1]) + if text == "" then [] else [text]
  }

  /** No text ends in a backslash, which the parser may take for the escape of the
      quote after it; bare text has no quotes and no white space. */
  predicate CanWrite(p: Piece) {
    (p.text == "" || p.text[|p.text| - 1] != '\\') &&
    match p
    case Bare(text) => forall c <- text :: c !in "'\" " && !(9 <= c as int <= 13)
    case InQuotes(quote, _) => quote == '\'' || quote == '"'
  }

  predicate IsGap(gap: string) {
    gap != "" && forall c <- gap :: c == ' ' || 9 <= c as int <= 13
  }

  ghost predicate CanType(words: seq<Word>) {
    forall i :: 0 <= i < |words| ==> IsGap(words[i].gap) && AllCanWrite(words[i].pieces)
  }

  ghost predicate AllCanWrite(pieces: seq<Piece>) {
    forall i :: 0 <= i < |pieces| ==> CanWrite(pieces[i])
  }

  lemma FeedPiece(s: Scan, p: Piece)
    requires s.Valid() && s.quote.None? && (s.flag.Some? ==> !EndsInEscape(s.flag.value)) && CanWrite(p)
    ensures Feed(s, WrittenPiece(p)) == s.(flag := Grow(s.flag, p.text))
  {
    match p
    case Bare(text) => FeedBare(s, text);
    case InQuotes(quote, text) => FeedQuoted(s, text, quote);
  }

  lemma GrowEnds(flag: Option<string>, text: string)
    requires (flag.Some? ==> !EndsInEscape(flag.value)) && !EndsInEscape(text)
    ensures var grown := Grow(flag, text);
      grown.Some? ==> !EndsInEscape(grown.value)
  {
    if flag.Some? && text == "" {
      assert flag.value + text == flag.value;
    }
  }

  lemma {:induction false} FeedPieces(s: Scan, pieces: seq<Piece>)
    requires s.Valid() && s.quote.None? && s.flag.None? && AllCanWrite(pieces)
    ensures Feed(s, Written(pieces)) == s.(flag := Grow(None, Meant(pieces))) && !EndsInEscape(Meant(pieces))
    decreases |pieces|
  {
    if pieces == [] {
    } else {
      var front, last := pieces[..|pieces| - 1], pieces[|pieces| - 1];
      FeedPieces(s, front);
      FeedConcat(s, Written(front), WrittenPiece(last));
      assert "" + Meant(front) == Meant(front);
      FeedPiece(Feed(s, Written(front)), last);
      GrowTwice(None, Meant(front), last.text);
      GrowEnds(Grow(None, Meant(front)), last.text);
      assert "" + Meant(pieces) == Meant(pieces);
    }
  }

  /** White space ends the pending token and is skipped otherwise. */
  lemma {:induction false} FeedGap(s: Scan, gap: string)
    requires s.Valid() && s.quote.None? && IsGap(gap)
    ensures Feed(s, gap) == Scan(Tokens(s), None, None)
    decreases |gap|
  {
    var front, last := gap[..|gap| - 1], gap[|gap| - 1];
    assert last in gap;
    if front == "" {
      assert Feed(s, front) == s;
    } else {
      assert forall c <- front :: c in gap;
      FeedGap(s, front);
    }
  }

  ghost predicate HasTokens(s: Scan, flags: seq<string>) {
    s.quote.None? && Tokens(s) != [] && Tokens(s)[1..] == flags
  }

  lemma FeedWord(s: Scan, flags: seq<string>, word: Word)
    requires s.Valid() && HasTokens(s, flags) && IsGap(word.gap) && AllCanWrite(word.pieces)
    ensures var text := Meant(word.pieces);
      HasTokens(Feed(s, word.gap + Written(word.pieces)), flags + if text == "" then [] else [text])
  {
    var text := Meant(word.pieces);
    FeedConcat(s, word.gap, Written(word.pieces));
    FeedGap(s, word.gap);
    FeedPieces(Scan(Tokens(s), None, None), word.pieces);
    if text == "" {
      assert flags + [] == flags;
    } else {
      assert "" + text == text;
      TailMore(Tokens(s), text);
    }
  }

  lemma {:induction false} FeedTyped(words: seq<Word>)
    requires CanType(words)
    ensures HasTokens(Feed(START, Typed(words)), AllMeant(words))
    decreases |words|
  {
    if words == [] {
      ReadName();
    } else {
      var front, last := words[..|words| - 1], words[|words| - 1];
      FeedTyped(front);
      FeedConcat(START, Typed(front), last.gap + Written(last.pieces));
      FeedWord(Feed(START, Typed(front)), AllMeant(front), last);
    }
  }

  /** Whatever quotes are chosen for which stretches of the flags, and whatever
      white space stands between them, parsing gives what the words mean. */
  lemma ParseTyped(words: seq<Word>)
    requires CanType(words)
    ensures Parsed(Typed(words)) == AllMeant(words)
  {
    FeedTyped(words);
  }

  predicate IsBlank(s: string) {
    forall c <- s :: c == ' ' || 9 <= c as int <= 13
  }

  /** Stripping takes the white space off both ends, and no more. */
  lemma StripMeans(s: string) returns (a: string, b: string)
    ensures var t := StripRight(StripLeft(s));
      s == a + t + b && IsBlank(a) && IsBlank(b) && (t != "" ==> !IsBlank(t[..1]) && !IsBlank(t[|t| - 1..]))
  {
    a := LeftStripped(s);
    b := RightStripped(StripLeft(s));
    var t := StripRight(StripLeft(s));
    Associate(a, t, b);
    if t != "" {
      assert t[0] == StripLeft(s)[0];
      assert t[0] in t[..1] && t[|t| - 1] in t[|t| - 1..];
    }
  }

  lemma {:induction false} LeftStripped(s: string) returns (a: string)
    ensures s == a + StripLeft(s) && IsBlank(a)
    ensures StripLeft(s) != "" ==> !IsSpace(StripLeft(s)[0])
    decreases |s|
  {
    a := "";
    if s != "" && IsSpace(s[0]) {
      a := LeftStripped(s[1..]);
      a := [s[0]] + a;
    }
  }

  lemma {:induction false} RightStripped(s: string) returns (b: string)
    ensures s == StripRight(s) + b && IsBlank(b)
    ensures StripRight(s) != "" ==> !IsSpace(StripRight(s)[|StripRight(s)| - 1])
    decreases |s|
  {
    b := "";
    if s != "" && IsSpace(s[|s| - 1]) {
      b := RightStripped(s[..|s| - 1]);
      b := b + [s[|s| - 1]];
    }
  }

  // ------------------------------------------------------------------ printing

  /** Only letters, digits, underscores and hyphens. */
  predicate IsPlainText(s: string) {
    forall c <- s :: 'a' <= c <= 'z' || 'A' <= c <= 'Z' || '0' <= c <= '9' || c == '_' || c == '-'
  }

  /** A flag is printed as it is if its key and its value are plain, and it is a
      plain key alone or has an equals sign after one. */
  ghost predicate PrintsPlainly(flag: string) {
    flag != "" && exists n :: 0 <= n <= |flag| && PlainSplit(flag, n)
  }

  predicate PlainSplit(flag: string, n: nat) {
    n <= |flag| && IsPlainText(flag[..n]) && (n < |flag| ==> flag[n] == '=' && IsPlainText(flag[n + 1..]))
  }

  lemma QuotedDiffers(text: string)
    ensures |Quoted(text, '"')| > |text|
  {
    EscapeLonger(text);
  }

  lemma {:induction false} EscapeLonger(text: string)
    ensures |Escape(text, '"')| >= |text|
    decreases |text|
  {
    if text == "" {
    } else {
      EscapeLonger(text[..|text| - 1]);
    }
  }

  lemma KeyEnds(flag: string, n: nat)
    requires n <= |flag| && IsPlainText(flag[..n]) && (n < |flag| ==> flag[n] == '=')
    ensures KeyLength(flag) == n
  {
    assert forall i :: 0 <= i < n ==> flag[i] in flag[..n];
    EqualsAt(flag, n);
  }

  lemma {:induction false} EqualsAt(flag: string, n: nat)
    requires n <= |flag| && (forall i :: 0 <= i < n ==> flag[i] != '=') && (n < |flag| ==> flag[n] == '=')
    ensures KeyLength(flag) == n
    decreases n
  {
    if n > 0 {
      EqualsAt(flag[1..], n - 1);
    }
  }

  /** A plain key and its equals sign are printed as they are, whatever the value. */
  lemma KeyInClear(flag: string, n: nat)
    requires n < |flag| && flag[n] == '=' && IsPlainText(flag[..n])
    ensures |QuoteFlag(flag)| > n && QuoteFlag(flag)[..n + 1] == flag[..n + 1]
  {
    KeyEnds(flag, n);
    assert QuoteFlag(flag) == flag[..n] + "=" + QuoteValue(flag[n + 1..]);
  }

  /** Quotes are printed exactly where a character needs them. */
  lemma PrintedPlainly(flag: string)
    ensures QuoteFlag(flag) == flag <==> PrintsPlainly(flag)
  {
    var n := KeyLength(flag);
    QuotedDiffers(flag);
    if PrintsPlainly(flag) {
      var m :| 0 <= m <= |flag| && PlainSplit(flag, m);
      KeyEnds(flag, m);
      if n < |flag| {
        assert flag == flag[..n] + "=" + flag[n + 1..];
      } else {
        assert flag == flag[..n];
      }
    } else if flag != "" && IsPlainText(flag[..n]) {
      assert !PlainSplit(flag, n);
      QuotedDiffers(flag[n + 1..]);
    }
  }
}
