/** The server-sent-event decoder of the two dialogue call sites, the HTML escaping of
    the accumulated text and the `**bold**` rewriting of `parseSimpleMarkdown`.

    The byte stream is already decoded: the stream is a sequence of text chunks, one
    per `reader.read()`. The JSON payload of a `data: ` line is abstract: an injected
    `FrameParser` gives the part texts of `candidates[0].content.parts`, or `None`
    when `JSON.parse` fails, when that path is missing, or when reading it throws. */
module Stream {
  import opened Wrappers
  import opened Text
  import opened Roles

  /** The prefix that marks a frame line. */
  const DataPrefix: string := "data: "

  /** `JSON.parse(payload)` followed by the guarded read of
      `candidates[0].content.parts.map(p => p.text)`. */
  type FrameParser = string -> Option<seq<string>>

  // ---------------------------------------------------------------------------
  // What the stream contributes
  // ---------------------------------------------------------------------------

  /** The text one line adds to `fullAiText`: the joined part texts of a `data: ` line
      whose payload parses and has parts; nothing otherwise. */
  function LineText(line: string, parse: FrameParser): Option<string> {
    if StartsWith(line, DataPrefix) then
      match parse(line[|DataPrefix|..])
      case Some(parts) => Some(Concat(parts))
      case None => None
    else None
  }

  /** `[t]` for a line that contributes text `t`, `[]` for any other line. */
  function LinePiece(line: string, parse: FrameParser): seq<string> {
    match LineText(line, parse)
    case Some(t) => [t]
    case None => []
  }

  /** The pieces of every element, in order. */
  function FlatMap<T>(xs: seq<T>, f: T -> seq<string>): seq<string> {
    if xs == [] then [] else FlatMap(xs[..|xs| - 1], f) + f(xs[|xs| - 1])
  }

  lemma {:induction false} FlatMapAppend<T>(a: seq<T>, b: seq<T>, f: T -> seq<string>)
    ensures FlatMap(a + b, f) == FlatMap(a, f) + FlatMap(b, f)
    decreases |b|
  {
    if b == [] {
      assert a + b == a;
    } else {
      var b' := b[..|b| - 1];
      FlatMapAppend(a, b', f);
      assert (a + b)[..|a + b| - 1] == a + b';
      assert (a + b)[|a + b| - 1] == b[|b| - 1];
    }
  }

  lemma FlatMapStep<T>(xs: seq<T>, j: nat, f: T -> seq<string>)
    requires j < |xs|
    ensures FlatMap(xs[..j + 1], f) == FlatMap(xs[..j], f) + f(xs[j])
  {
    assert xs[..j + 1][..j] == xs[..j];
  }

  /** The texts a list of lines contributes, in line order. */
  function LinePieces(lines: seq<string>, parse: FrameParser): seq<string> {
    FlatMap(lines, (l: string) => LinePiece(l, parse))
  }

  /** The texts one chunk contributes: the chunk is split on newlines by itself, with no
      carry-over from the chunk before. */
  function ChunkPieces(chunk: string, parse: FrameParser): seq<string> {
    LinePieces(Split(chunk), parse)
  }

  /** The texts the whole stream contributes, chunk after chunk. */
  function StreamPieces(chunks: seq<string>, parse: FrameParser): seq<string> {
    FlatMap(chunks, (c: string) => ChunkPieces(c, parse))
  }

  /** `fullAiText` once the stream has ended. */
  function StreamText(chunks: seq<string>, parse: FrameParser): string {
    Concat(StreamPieces(chunks, parse))
  }

  /** A line that is not a `data: ` frame, or whose payload does not parse or has no
      parts, contributes nothing wherever it stands. */
  lemma IgnoredLineContributesNothing(a: seq<string>, line: string, b: seq<string>, parse: FrameParser)
    requires LineText(line, parse).None?
    ensures LinePieces(a + [line] + b, parse) == LinePieces(a + b, parse)
  {
    var f := (l: string) => LinePiece(l, parse);
    var la, lb := FlatMap(a, f), FlatMap(b, f);
    FlatMapOne(line, f);
    assert f(line) == [];
    FlatMapAppend(a, [line], f);
    assert FlatMap(a + [line], f) == la;
    FlatMapAppend(a + [line], b, f);
    FlatMapAppend(a, b, f);
  }

  /** The stream's contribution is the chunks' contributions, in order: each chunk is
      decoded on its own. */
  lemma StreamPiecesAppend(a: seq<string>, b: seq<string>, parse: FrameParser)
    ensures StreamPieces(a + b, parse) == StreamPieces(a, parse) + StreamPieces(b, parse)
  {
    FlatMapAppend(a, b, (c: string) => ChunkPieces(c, parse));
  }

  /** Every successive value of `fullAiText` extends the one before it: the text only
      grows by appending, and each value is a prefix of the final text. */
  lemma SnapshotsGrow(pieces: seq<string>, i: nat, j: nat)
    requires i <= j <= |pieces|
    ensures Concat(pieces[..j]) == Concat(pieces[..i]) + Concat(pieces[i..j])
    ensures StartsWith(Concat(pieces[..j]), Concat(pieces[..i]))
  {
    assert pieces[..j] == pieces[..i] + pieces[i..j];
    ConcatAppend(pieces[..i], pieces[i..j]);
    var p := Concat(pieces[..i]);
    assert (p + Concat(pieces[i..j]))[..|p|] == p;
  }

  lemma SplitWithoutNewline(a: string)
    requires '\n' !in a
    ensures Split(a) == [a]
  {
    SplitPrefixWithoutNewline(a, "");
    assert a + "" == a;
  }

  /** Appending one piece extends the accumulated text by that piece. */
  lemma AppendPiece(pieces: seq<string>, t: string)
    ensures Concat(pieces + [t]) == Concat(pieces) + t
  {
    ConcatAppend(pieces, [t]);
    assert Concat([t]) == t + Concat([]);
  }

  lemma FlatMapOne<T>(x: T, f: T -> seq<string>)
    ensures FlatMap([x], f) == f(x)
  {
    assert [x][..0] == [];
  }

  /** A one-line chunk holding a whole frame contributes the frame's text. */
  lemma WholeFrameDecoded(payload: string, parse: FrameParser)
    requires '\n' !in payload && parse(payload).Some?
    ensures StreamText([DataPrefix + payload], parse) == Concat(parse(payload).value)
  {
    var frame := DataPrefix + payload;
    assert '\n' !in frame;
    SplitWithoutNewline(frame);
    assert frame[..|DataPrefix|] == DataPrefix && frame[|DataPrefix|..] == payload;
    var t := Concat(parse(payload).value);
    assert LinePiece(frame, parse) == [t];
    FlatMapOne(frame, (l: string) => LinePiece(l, parse));
    FlatMapOne(frame, (c: string) => ChunkPieces(c, parse));
    assert Concat([t]) == t + Concat([]);
  }

  /** A frame split across two chunks is lost: the decoder does not stitch chunks, so
      the same bytes delivered as `"da"` and `"ta: ..."` contribute nothing, whatever the
      payload. */
  lemma SplitFrameIsDropped(payload: string, parse: FrameParser)
    requires '\n' !in payload
    ensures StreamText([DataPrefix[..2], DataPrefix[2..] + payload], parse) == ""
  {
    var a, b := DataPrefix[..2], DataPrefix[2..] + payload;
    assert a == "da" && b[0] == 't' && DataPrefix[0] == 'd';
    assert '\n' !in a && '\n' !in b;
    assert !StartsWith(a, DataPrefix) && !StartsWith(b, DataPrefix);
    SplitWithoutNewline(a);
    SplitWithoutNewline(b);
    var lf := (l: string) => LinePiece(l, parse);
    var cf := (c: string) => ChunkPieces(c, parse);
    assert LinePiece(a, parse) == [] && LinePiece(b, parse) == [];
    FlatMapOne(a, lf);
    FlatMapOne(b, lf);
    FlatMapAppend([a], [b], cf);
    FlatMapOne(a, cf);
    FlatMapOne(b, cf);
    assert [a] + [b] == [a, b];
  }

  // ---------------------------------------------------------------------------
  // Escaping
  // ---------------------------------------------------------------------------

  /** `s.replace(/c/g, rep)` for a single character `c`. */
  function ReplaceChar(s: string, c: char, rep: string): string {
    if s == [] then []
    else (if s[0] == c then rep else [s[0]]) + ReplaceChar(s[1..], c, rep)
  }

  /** Replacing `c` introduces no character that is in neither the text nor `rep`; in
      particular no `c` is left when `rep` holds none. */
  lemma {:induction false} ReplaceCharKeepsAbsent(s: string, c: char, rep: string, d: char)
    requires d !in rep
    requires d !in s || d == c
    ensures d !in ReplaceChar(s, c, rep)
  {
    if s != [] {
      ReplaceCharKeepsAbsent(s[1..], c, rep, d);
    }
  }

  /** Text without `c` is left as it is. */
  lemma {:induction false} ReplaceCharAbsent(s: string, c: char, rep: string)
    requires c !in s
    ensures ReplaceChar(s, c, rep) == s
  {
    if s != [] {
      ReplaceCharAbsent(s[1..], c, rep);
      assert [s[0]] + s[1..] == s;
    }
  }

  /** One step of the replacement: the first character's replacement comes first. */
  lemma ReplaceCharCons(x: char, s: string, c: char, rep: string)
    ensures ReplaceChar([x] + s, c, rep) == (if x == c then rep else [x]) + ReplaceChar(s, c, rep)
  {
    assert ([x] + s)[0] == x && ([x] + s)[1..] == s;
  }

  lemma {:induction false} ReplaceCharAppend(a: string, b: string, c: char, rep: string)
    ensures ReplaceChar(a + b, c, rep) == ReplaceChar(a, c, rep) + ReplaceChar(b, c, rep)
  {
    if a == [] {
      assert a + b == b;
    } else {
      var x, rest := a[0], a[1..];
      var h := if x == c then rep else [x];
      var rb, rr := ReplaceChar(b, c, rep), ReplaceChar(rest, c, rep);
      ReplaceCharAppend(rest, b, c, rep);
      assert a == [x] + rest;
      assert a + b == [x] + (rest + b);
      ReplaceCharCons(x, rest + b, c, rep);
      ReplaceCharCons(x, rest, c, rep);
      assert h + (rr + rb) == (h + rr) + rb;
    }
  }

  /** `text.replace(/</g, "&lt;").replace(/>/g, "&gt;")`. */
  function Escape(s: string): string {
    ReplaceChar(ReplaceChar(s, '<', "&lt;"), '>', "&gt;")
  }

  /** After escaping, the text holds no raw angle bracket. */
  lemma EscapeNoBrackets(s: string)
    ensures '<' !in Escape(s) && '>' !in Escape(s)
  {
    var lt := ReplaceChar(s, '<', "&lt;");
    ReplaceCharKeepsAbsent(s, '<', "&lt;", '<');
    ReplaceCharKeepsAbsent(lt, '>', "&gt;", '<');
    ReplaceCharKeepsAbsent(lt, '>', "&gt;", '>');
  }

  /** Text without angle brackets is displayed as it is. */
  lemma EscapeUnchanged(s: string)
    requires '<' !in s && '>' !in s
    ensures Escape(s) == s
  {
    ReplaceCharAbsent(s, '<', "&lt;");
    ReplaceCharAbsent(s, '>', "&gt;");
  }

  /** Escaping works character by character, so escaping the accumulated text is the
      same as escaping its pieces. */
  lemma EscapeAppend(a: string, b: string)
    ensures Escape(a + b) == Escape(a) + Escape(b)
  {
    ReplaceCharAppend(a, b, '<', "&lt;");
    ReplaceCharAppend(ReplaceChar(a, '<', "&lt;"), ReplaceChar(b, '<', "&lt;"), '>', "&gt;");
  }

  /** '&' is not escaped, so a literal "&lt;" in the model's text and a real '<' display
      the same way. */
  lemma EscapeConflatesEntity()
    ensures Escape("<") == Escape("&lt;") == "&lt;"
  {
    assert ReplaceChar("<", '<', "&lt;") == "&lt;";
  }

  lemma EscapeCloseBracket()
    ensures Escape(">") == "&gt;"
  {
    assert ReplaceChar(">", '<', "&lt;") == ">";
  }

  /** A tag such as `<script>` in the model's text is displayed as text, never as
      markup: both its brackets become entities and its name is kept. */
  lemma EscapeTag(name: string)
    requires '<' !in name && '>' !in name
    ensures Escape("<" + name + ">") == "&lt;" + name + "&gt;"
  {
    EscapeAppend("<" + name, ">");
    EscapeAppend("<", name);
    EscapeUnchanged(name);
    EscapeConflatesEntity();
    EscapeCloseBracket();
  }

  // ---------------------------------------------------------------------------
  // Emphasis: text.replace(/\*\*(.*?)\*\*/g, '<strong>$1</strong>')
  // ---------------------------------------------------------------------------

  /** The characters a regular-expression `.` does not match. */
  predicate IsLineTerminator(c: char) {
    c == '\n' || c == '\r' || c == '\U{2028}' || c == '\U{2029}'
  }

  /** A `**` marker starts at position `m` of `s`. */
  ghost predicate MarkerAt(s: string, m: int) {
    0 <= m && m + 1 < |s| && s[m] == '*' && s[m + 1] == '*'
  }

  /** The lazy `(.*?)\*\*` part of the pattern, started at position `k`: the position of
      the first `**` at or after `k`, provided no line terminator comes before it. */
  function CloseFrom(s: string, k: nat): (r: Option<nat>)
    requires k <= |s|
    ensures r.Some? ==> k <= r.value && MarkerAt(s, r.value)
    decreases |s| - k
  {
    if k + 1 < |s| && s[k] == '*' && s[k + 1] == '*' then Some(k)
    else if k < |s| && !IsLineTerminator(s[k]) then CloseFrom(s, k + 1)
    else None
  }

  /** `CloseFrom` is the lazy same-line match: it finds the nearest `**` with no line
      terminator before it, and finds nothing exactly when every later `**` lies beyond
      a line terminator. */
  lemma {:induction false} CloseFromSpec(s: string, k: nat)
    requires k <= |s|
    ensures CloseFrom(s, k).Some? ==> forall m :: k <= m < CloseFrom(s, k).value ==>
      !IsLineTerminator(s[m]) && !MarkerAt(s, m)
    ensures CloseFrom(s, k).None? ==> forall m :: k <= m && MarkerAt(s, m) ==>
      exists t :: k <= t < m && IsLineTerminator(s[t])
    decreases |s| - k
  {
    if k + 1 < |s| && s[k] == '*' && s[k + 1] == '*' {
    } else if k < |s| && !IsLineTerminator(s[k]) {
      CloseFromSpec(s, k + 1);
      assert !MarkerAt(s, k);
    } else if k < |s| {
      assert !MarkerAt(s, k);
      assert IsLineTerminator(s[k]);
    }
  }

  const OpenTag: string := "<strong>"
  const CloseTag: string := "</strong>"

  /** `parseSimpleMarkdown`: scanning left to right, every `**x**` whose `x` is the shortest
      same-line text before the next `**` becomes `<strong>x</strong>`; every other
      character is copied. */
  function Markdown(s: string): string
    decreases |s|
  {
    if StartsWith(s, "**") && CloseFrom(s, 2).Some? then
      var j := CloseFrom(s, 2).value;
      OpenTag + (s[2..j] + (CloseTag + Markdown(s[j + 2..])))
    else if s == [] then []
    else [s[0]] + Markdown(s[1..])
  }

  /** Text without `**` is left unchanged. */
  lemma {:induction false} MarkdownUnchanged(s: string)
    requires !Contains(s, "**")
    ensures Markdown(s) == s
    decreases |s|
  {
    if s != [] {
      MarkdownUnchanged(s[1..]);
      assert [s[0]] + s[1..] == s;
    }
  }

  /** Turns the emphasis tags back into `**` markers (a reference inverse for `Markdown`). */
  function RestoreMarkers(t: string): string
    decreases |t|
  {
    if t == [] then []
    else if t[0] != '<' then [t[0]] + RestoreMarkers(t[1..])
    else if StartsWith(t, OpenTag) then "**" + RestoreMarkers(t[|OpenTag|..])
    else if StartsWith(t, CloseTag) then "**" + RestoreMarkers(t[|CloseTag|..])
    else [t[0]] + RestoreMarkers(t[1..])
  }

  lemma RestoreOpen(x: string)
    ensures RestoreMarkers(OpenTag + x) == "**" + RestoreMarkers(x)
  {
    var t := OpenTag + x;
    assert t[..|OpenTag|] == OpenTag;
    assert t[|OpenTag|..] == x;
  }

  lemma RestoreClose(x: string)
    ensures RestoreMarkers(CloseTag + x) == "**" + RestoreMarkers(x)
  {
    var t := CloseTag + x;
    assert t[1] == '/' && OpenTag[1] == 's';
    assert !StartsWith(t, OpenTag);
    assert t[..|CloseTag|] == CloseTag;
    assert t[|CloseTag|..] == x;
  }

  lemma RestoreCons(c: char, x: string)
    requires c != '<'
    ensures RestoreMarkers([c] + x) == [c] + RestoreMarkers(x)
  {
    var t := [c] + x;
    assert t[0] == c && OpenTag[0] == '<' && CloseTag[0] == '<';
    assert !StartsWith(t, OpenTag) && !StartsWith(t, CloseTag);
    assert t[1..] == x;
  }

  lemma {:induction false} RestorePlain(a: string, x: string)
    requires '<' !in a
    ensures RestoreMarkers(a + x) == a + RestoreMarkers(x)
  {
    if a == [] {
      assert a + x == x;
    } else {
      var c, rest := a[0], a[1..];
      var rx, tail := rest + x, RestoreMarkers(x);
      assert a == [c] + rest;
      RestorePlain(rest, x);
      RestoreCons(c, rx);
      assert a + x == [c] + rx;
      assert [c] + (rest + tail) == a + tail;
    }
  }

  /** A `**x**` match at the start of `s`: the text splits into the two markers around the
      inner text and the rest. */
  lemma EmphasisSplit(s: string) returns (j: nat)
    requires StartsWith(s, "**") && CloseFrom(s, 2).Some?
    ensures j == CloseFrom(s, 2).value && 2 <= j && j + 2 <= |s|
    ensures s == "**" + (s[2..j] + ("**" + s[j + 2..]))
    ensures '<' !in s ==> '<' !in s[2..j] && '<' !in s[j + 2..]
  {
    j := CloseFrom(s, 2).value;
    assert s[..2] == "**" && s[j..j + 2] == "**";
    assert s == s[..2] + (s[2..j] + (s[j..j + 2] + s[j + 2..]));
    if '<' !in s {
      var inner, tail := s[2..j], s[j + 2..];
      forall m | 0 <= m < |inner| ensures inner[m] != '<' {
        assert inner[m] == s[2 + m];
      }
      forall m | 0 <= m < |tail| ensures tail[m] != '<' {
        assert tail[m] == s[j + 2 + m];
      }
    }
  }

  /** The lazy search runs over plain same-line characters up to the next `**`. */
  lemma {:induction false} CloseFromSkips(s: string, k: nat, n: nat)
    requires k + n + 1 < |s| && s[k + n] == '*' && s[k + n + 1] == '*'
    requires forall m :: k <= m < k + n ==> s[m] != '*' && !IsLineTerminator(s[m])
    ensures CloseFrom(s, k) == Some(k + n)
    decreases n
  {
    if n > 0 {
      assert s[k] != '*' && !IsLineTerminator(s[k]);
      CloseFromSkips(s, k + 1, n - 1);
    }
  }

  /** Each `**x**` whose `x` is on one line and holds no `*` is rewritten to
      `<strong>x</strong>`, and the scan goes on after the closing marker. */
  lemma MarkdownEmphasis(x: string, rest: string)
    requires forall m :: 0 <= m < |x| ==> x[m] != '*' && !IsLineTerminator(x[m])
    ensures Markdown("**" + x + "**" + rest) == OpenTag + x + CloseTag + Markdown(rest)
  {
    var s := "**" + x + "**" + rest;
    var j := 2 + |x|;
    forall m | 2 <= m < j ensures s[m] != '*' && !IsLineTerminator(s[m]) {
      assert s[m] == x[m - 2];
    }
    assert s[j] == '*' && s[j + 1] == '*';
    CloseFromSkips(s, 2, |x|);
    assert s[..2] == "**";
    MarkdownMatch(s, j);
    assert s[2..j] == x && s[j + 2..] == rest;
    var out := Markdown(rest);
    assert OpenTag + (x + (CloseTag + out)) == OpenTag + x + CloseTag + out;
  }

  /** One step of the scan: a match at the start of the text. */
  lemma MarkdownMatch(s: string, j: nat)
    requires StartsWith(s, "**") && CloseFrom(s, 2) == Some(j)
    ensures j + 2 <= |s|
    ensures Markdown(s) == OpenTag + (s[2..j] + (CloseTag + Markdown(s[j + 2..])))
  {
    assert CloseFrom(s, 2).Some? && CloseFrom(s, 2).value == j;
  }

  /** On text without '<' (which escaping guarantees), the only tags in the output are
      the emphasis tags `Markdown` inserted: turning them back into `**` gives the input. */
  lemma {:induction false} MarkdownRoundTrip(s: string)
    requires '<' !in s
    ensures RestoreMarkers(Markdown(s)) == s
    decreases |s|
  {
    if StartsWith(s, "**") && CloseFrom(s, 2).Some? {
      var j := EmphasisSplit(s);
      var inner, tail := s[2..j], s[j + 2..];
      var out := Markdown(tail);
      assert Markdown(s) == OpenTag + (inner + (CloseTag + out));
      MarkdownRoundTrip(tail);
      RestoreOpen(inner + (CloseTag + out));
      RestorePlain(inner, CloseTag + out);
      RestoreClose(out);
    } else if s != [] {
      MarkdownRoundTrip(s[1..]);
      RestoreCons(s[0], Markdown(s[1..]));
      assert [s[0]] + s[1..] == s;
    }
  }

  // ---------------------------------------------------------------------------
  // Display and the decoding loop
  // ---------------------------------------------------------------------------

  /** The message's `innerHTML`: the speaker prefix, then the escaped text with emphasis. */
  function Display(role: Role, text: string): string {
    RolePrefix(role) + Markdown(Escape(text))
  }

  /** The displayed body is the escaped text with emphasis tags only: turning the tags back
      into `**` gives exactly the escaped text. */
  lemma DisplayBody(role: Role, text: string)
    ensures StartsWith(Display(role, text), RolePrefix(role))
    ensures RestoreMarkers(Display(role, text)[|RolePrefix(role)|..]) == Escape(text)
  {
    var d := Display(role, text);
    assert d[..|RolePrefix(role)|] == RolePrefix(role);
    assert d[|RolePrefix(role)|..] == Markdown(Escape(text));
    EscapeNoBrackets(text);
    MarkdownRoundTrip(Escape(text));
  }

  /** Every display shows the text accumulated up to and including its piece. */
  ghost predicate ShowsSnapshots(role: Role, displays: seq<string>, pieces: seq<string>) {
    |displays| == |pieces|
    && forall i :: 0 <= i < |displays| ==> displays[i] == Display(role, Concat(pieces[..i + 1]))
  }

  lemma ShowsSnapshotsExtend(role: Role, displays: seq<string>, pieces: seq<string>, t: string)
    requires ShowsSnapshots(role, displays, pieces)
    ensures ShowsSnapshots(role, displays + [Display(role, Concat(pieces) + t)], pieces + [t])
  {
    AppendPiece(pieces, t);
    var d, p := displays + [Display(role, Concat(pieces) + t)], pieces + [t];
    forall i | 0 <= i < |d| ensures d[i] == Display(role, Concat(p[..i + 1])) {
      if i < |displays| {
        assert p[..i + 1] == pieces[..i + 1];
      } else {
        assert p[..i + 1] == p;
      }
    }
  }

  /** One line of a chunk: a `data: ` line whose payload parses and has parts appends
      its part texts to `fullAiText`, and the message is redisplayed from the whole
      accumulated text; any other line changes nothing. */
  method DecodeLine(role: Role, line: string, parse: FrameParser, text0: string,
                    displays0: seq<string>, ghost pieces0: seq<string>)
    returns (fullText: string, displays: seq<string>, ghost pieces: seq<string>)
    requires text0 == Concat(pieces0) && ShowsSnapshots(role, displays0, pieces0)
    ensures pieces == pieces0 + LinePiece(line, parse)
    ensures fullText == Concat(pieces) && ShowsSnapshots(role, displays, pieces)
  {
    fullText, displays, pieces := text0, displays0, pieces0;
    if StartsWith(line, DataPrefix) {
      var data := parse(line[|DataPrefix|..]);
      if data.Some? {
        var partText := Concat(data.value);
        AppendPiece(pieces, partText);
        ShowsSnapshotsExtend(role, displays, pieces, partText);
        fullText := fullText + partText;
        pieces := pieces + [partText];
        displays := displays + [Display(role, fullText)];
      }
    }
  }

  /** The inner loop over the lines of one chunk. */
  method DecodeChunk(role: Role, chunk: string, parse: FrameParser, text0: string,
                     displays0: seq<string>, ghost pieces0: seq<string>)
    returns (fullText: string, displays: seq<string>, ghost pieces: seq<string>)
    requires text0 == Concat(pieces0) && ShowsSnapshots(role, displays0, pieces0)
    ensures pieces == pieces0 + ChunkPieces(chunk, parse)
    ensures fullText == Concat(pieces) && ShowsSnapshots(role, displays, pieces)
  {
    fullText, displays, pieces := text0, displays0, pieces0;
    var lines := Split(chunk);
    var j := 0;
    while j < |lines|
      invariant 0 <= j <= |lines|
      invariant pieces == pieces0 + LinePieces(lines[..j], parse)
      invariant fullText == Concat(pieces)
      invariant ShowsSnapshots(role, displays, pieces)
    {
      FlatMapStep(lines, j, (l: string) => LinePiece(l, parse));
      fullText, displays, pieces := DecodeLine(role, lines[j], parse, fullText, displays, pieces);
      j := j + 1;
    }
    assert lines[..j] == lines;
  }

  /** The stream loop: every chunk read is decoded on its own. */
  method DecodeStream(role: Role, chunks: seq<string>, parse: FrameParser)
    returns (fullText: string, displays: seq<string>)
    ensures fullText == StreamText(chunks, parse)
    ensures ShowsSnapshots(role, displays, StreamPieces(chunks, parse))
  {
    fullText := "";
    displays := [];
    ghost var pieces: seq<string> := [];
    var c := 0;
    while c < |chunks|
      invariant 0 <= c <= |chunks|
      invariant pieces == StreamPieces(chunks[..c], parse)
      invariant fullText == Concat(pieces)
      invariant ShowsSnapshots(role, displays, pieces)
    {
      FlatMapStep(chunks, c, (ch: string) => ChunkPieces(ch, parse));
      fullText, displays, pieces := DecodeChunk(role, chunks[c], parse, fullText, displays, pieces);
      c := c + 1;
    }
    assert chunks[..c] == chunks;
  }
}
