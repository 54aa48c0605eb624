/**
 * Word-list extraction from a model reply, the offline fallback decision
 * and the word-list prompt.  A reply is tried, in this order, as a fenced
 * JSON array, as JSON as a whole, as the span from its first `[` to its
 * last `]`, and finally by a line and comma heuristic.
 */
module WordList {
  import opened Wrappers
  import opened Text
  import opened JsonValue
  import opened Dedup
  import Fence

  /** One vocabulary card: the four fields every written entry has. */
  datatype Entry = Entry(word: string, translation: string, example: string, exampleTranslation: string)

  /** The record made from a bare word by the heuristic and the built-in vocabulary. */
  function Template(w: string): Entry {
    Entry(w, w, "Tämä on " + w + ".", "This is " + w + ".")
  }

  /** One templated entry per word, in order. */
  function Templates(ws: seq<string>): seq<Entry> {
    seq(|ws|, k requires 0 <= k < |ws| => Template(ws[k]))
  }

  /** Word and translation carry no surrounding whitespace. */
  predicate WordTrimmed(e: Entry) {
    Trimmed(e.word) && Trimmed(e.translation)
  }

  /** All four fields carry no surrounding whitespace. */
  predicate AllTrimmed(e: Entry) {
    WordTrimmed(e) && Trimmed(e.example) && Trimmed(e.exampleTranslation)
  }

  /**
   * An object is accepted iff it has `word`, `translation` and `example`;
   * every field is the stripped text of its value, and a missing
   * `example_translation` falls back to the example.
   */
  function AcceptObject(f: map<string, Json>): (r: Option<Entry>)
    ensures r.Some? <==> "word" in f && "translation" in f && "example" in f
    ensures r.Some? ==> AllTrimmed(r.value)
    ensures r.Some? ==> r.value.word == Strip(Str(f["word"])) && r.value.example == Strip(Str(f["example"]))
    ensures r.Some? ==> r.value.translation == Strip(Str(f["translation"]))
    ensures r.Some? && "example_translation" in f ==> r.value.exampleTranslation == Strip(Str(f["example_translation"]))
    ensures r.Some? && "example_translation" !in f ==> r.value.exampleTranslation == r.value.example
  {
    if "word" in f && "translation" in f && "example" in f then
      var w, t, x := Str(f["word"]), Str(f["translation"]), Str(f["example"]);
      var xt := Str(Get(f, "example_translation", f["example"]));
      Some(Entry(Strip(w), Strip(t), Strip(x), Strip(xt)))
    else None
  }

  /** A bare string element: stripped as the word and its translation, unstripped inside the templates. */
  function BareEntry(s: string): (e: Entry)
    ensures WordTrimmed(e) && e.word == e.translation && e.word == Strip(s)
    ensures e.example == "Tämä on " + s + "." && e.exampleTranslation == "This is " + s + "."
  {
    Entry(Strip(s), Strip(s), "Tämä on " + s + ".", "This is " + s + ".")
  }

  /** Whether an array element is kept; bare strings only when `bare` holds. */
  function AcceptItem(item: Json, bare: bool): (r: Option<Entry>)
    ensures item.JObject? ==> r == AcceptObject(item.fields)
    ensures item.JStr? ==> (r.Some? <==> bare) && (r.Some? ==> r.value == BareEntry(item.s))
    ensures !item.JObject? && !item.JStr? ==> r.None?
  {
    match item
    case JObject(f) => AcceptObject(f)
    case JStr(s) => if bare then Some(BareEntry(s)) else None
    case _ => None
  }

  /** The accepted elements of an array, in order. */
  function Accepted(items: seq<Json>, bare: bool): (r: seq<Entry>)
    ensures |r| <= |items|
    decreases |items|
  {
    if items == [] then []
    else
      var prefix := Accepted(items[..|items| - 1], bare);
      match AcceptItem(items[|items| - 1], bare)
      case Some(e) => prefix + [e]
      case None => prefix
  }

  /** The loop over a decoded array that appends each accepted element. */
  method CollectEntries(items: seq<Json>, bare: bool) returns (result: seq<Entry>)
    ensures result == Accepted(items, bare)
  {
    result := [];
    var i := 0;
    while i < |items|
      invariant 0 <= i <= |items|
      invariant result == Accepted(items[..i], bare)
    {
      assert items[..i + 1][..i] == items[..i];
      match AcceptItem(items[i], bare) {
        case Some(e) => result := result + [e];
        case None =>
      }
      i := i + 1;
    }
    assert items[..i] == items;
  }

  /** Accepted words are trimmed; without bare strings, every field is. */
  lemma {:induction false} AcceptedTrimmed(items: seq<Json>, bare: bool)
    ensures forall k :: 0 <= k < |Accepted(items, bare)| ==> WordTrimmed(Accepted(items, bare)[k])
    ensures !bare ==> forall k :: 0 <= k < |Accepted(items, bare)| ==> AllTrimmed(Accepted(items, bare)[k])
    decreases |items|
  {
    if items != [] {
      var front := items[..|items| - 1];
      AcceptedTrimmed(front, bare);
      var p := Accepted(front, bare);
      var r := Accepted(items, bare);
      assert r[..|p|] == p;
      forall k | |p| <= k < |r| ensures WordTrimmed(r[k]) && (!bare ==> AllTrimmed(r[k])) {
        assert r[k] == AcceptItem(items[|items| - 1], bare).value;
      }
      forall k | 0 <= k < |p| ensures r[k] == p[k] { }
    }
  }

  /** A strategy's answer from a decoded value: the accepted entries cut to `n`, when there are any. */
  function FromDecoded(data: Option<Json>, bare: bool, n: int): (r: Option<seq<Entry>>)
    ensures r.Some? <==> data.Some? && data.value.JList? && Accepted(data.value.items, bare) != []
    ensures r.Some? ==> r.value == PyTake(Accepted(data.value.items, bare), n)
  {
    if data.Some? && data.value.JList? then
      var r := Accepted(data.value.items, bare);
      if r != [] then Some(PyTake(r, n)) else None
    else None
  }

  /** First strategy: the group of a fenced array, objects only. */
  function FencedStage(text: string, n: int, decode: Decoder): Option<seq<Entry>> {
    match Fence.FencedArray(text)
    case Some(g) => FromDecoded(decode(g), false, n)
    case None => None
  }

  /** Second strategy: the whole text, objects and bare strings. */
  function WholeStage(text: string, n: int, decode: Decoder): Option<seq<Entry>> {
    FromDecoded(decode(text), true, n)
  }

  /** The text from the first `[` to the last `]`, when the last `]` comes after the first `[`. */
  function BracketSpan(text: string): (r: Option<string>)
    ensures r.Some? <==> '[' in text && ']' in text && Find(text, '[') < RFind(text, ']')
    ensures r.Some? ==> |r.value| >= 2 && r.value[0] == '[' && r.value[|r.value| - 1] == ']'
    ensures r.Some? ==> r.value == text[Find(text, '[')..RFind(text, ']') + 1]
  {
    var s := Find(text, '[');
    var e := RFind(text, ']');
    if s >= 0 && e > s then Some(text[s..e + 1]) else None
  }

  /** Third strategy: from the first `[` to the last `]`, objects only. */
  function BracketStage(text: string, n: int, decode: Decoder): Option<seq<Entry>> {
    match BracketSpan(text)
    case Some(span) => FromDecoded(decode(span), false, n)
    case None => None
  }

  // ---------------------------------------------------------------- heuristic

  /** A comma-separated piece stripped of whitespace, then of `"`, then of `'`. */
  function CleanToken(part: string): string {
    StripSet(StripSet(Strip(part), IsDoubleQuote), IsSingleQuote)
  }

  /** What a cleaned piece must look like to be kept. */
  predicate KeepToken(w: string) {
    |w| > 1 && w[0] != '{' && w[0] != '['
  }

  /** The shape of every heuristic token. */
  predicate TokenShape(w: string) {
    KeepToken(w) && ',' !in w && w[0] != '\'' && w[|w| - 1] != '\''
  }

  /**
   * The stripped line, or None when it is blank or starts with a backtick,
   * `[` or `{`; a line starting with a digit loses everything up to its
   * first `.` when it has one.
   */
  function LineBody(line: string): Option<string> {
    var l := Strip(line);
    if l == [] || l[0] == '`' || l[0] == '[' || l[0] == '{' then None
    else if IsDigit(l[0]) then
      match SplitOnce(l, '.')
      case Some(halves) => Some(Strip(halves.1))
      case None => Some(l)
    else Some(l)
  }

  /** The kept tokens of the comma-separated pieces of one line, in order. */
  function PartTokens(parts: seq<string>): seq<string>
    decreases |parts|
  {
    if parts == [] then []
    else
      var prefix := PartTokens(parts[..|parts| - 1]);
      var w := CleanToken(parts[|parts| - 1]);
      if KeepToken(w) then prefix + [w] else prefix
  }

  /** The tokens one line contributes. */
  function LineTokens(line: string): seq<string> {
    match LineBody(line)
    case None => []
    case Some(body) => PartTokens(SplitOn(body, ','))
  }

  lemma {:induction false} PartTokensShape(parts: seq<string>)
    requires forall k :: 0 <= k < |parts| ==> ',' !in parts[k]
    ensures forall k :: 0 <= k < |PartTokens(parts)| ==> TokenShape(PartTokens(parts)[k])
    decreases |parts|
  {
    if parts != [] {
      var front := parts[..|parts| - 1];
      assert forall k :: 0 <= k < |front| ==> front[k] == parts[k];
      PartTokensShape(front);
      var w := CleanToken(parts[|parts| - 1]);
      if KeepToken(w) {
        CleanTokenShape(parts[|parts| - 1]);
        var p := PartTokens(front);
        var r := p + [w];
        forall k | 0 <= k < |r| ensures TokenShape(r[k]) {
          if k < |p| { assert r[k] == p[k]; }
        }
      }
    }
  }

  lemma LineTokensShape(line: string)
    ensures forall k :: 0 <= k < |LineTokens(line)| ==> TokenShape(LineTokens(line)[k])
  {
    var body := LineBody(line);
    if body.Some? {
      PartTokensShape(SplitOn(body.value, ','));
    }
  }

  /** The tokens of a sequence of lines, line by line. */
  function LinesTokens(lines: seq<string>): seq<string>
    decreases |lines|
  {
    if lines == [] then [] else LinesTokens(lines[..|lines| - 1]) + LineTokens(lines[|lines| - 1])
  }

  function Tokens(text: string): seq<string> {
    LinesTokens(SplitLines(text))
  }

  lemma ShapeConcat(p: seq<string>, q: seq<string>)
    requires forall k :: 0 <= k < |p| ==> TokenShape(p[k])
    requires forall k :: 0 <= k < |q| ==> TokenShape(q[k])
    ensures forall k :: 0 <= k < |p + q| ==> TokenShape((p + q)[k])
  {
    forall k | 0 <= k < |p + q| ensures TokenShape((p + q)[k]) {
      if k < |p| { assert (p + q)[k] == p[k]; } else { assert (p + q)[k] == q[k - |p|]; }
    }
  }

  /** Every heuristic token has the kept shape. */
  lemma {:induction false} LinesTokensShape(lines: seq<string>)
    ensures forall k :: 0 <= k < |LinesTokens(lines)| ==> TokenShape(LinesTokens(lines)[k])
    decreases |lines|
  {
    if lines != [] {
      var front := lines[..|lines| - 1];
      LinesTokensShape(front);
      LineTokensShape(lines[|lines| - 1]);
      ShapeConcat(LinesTokens(front), LineTokens(lines[|lines| - 1]));
    }
  }

  function Id(s: string): string { s }

  /**
   * The heuristic's result: the distinct tokens in first-occurrence order,
   * cut to `n` entries, but never to fewer than one, because the length
   * test follows the append.
   */
  function Heuristic(text: string, n: int): seq<Entry> {
    Templates(PyTake(DedupBy(Tokens(text), Id), Max(n, 1)))
  }

  lemma CleanTokenShape(part: string)
    requires ',' !in part && KeepToken(CleanToken(part))
    ensures TokenShape(CleanToken(part))
  {
    var a := Strip(part);
    var b := StripSet(a, IsDoubleQuote);
    StripSetKeepsOut(part, IsSpace, ',');
    StripSetKeepsOut(a, IsDoubleQuote, ',');
    StripSetKeepsOut(b, IsSingleQuote, ',');
    StripSetEnds(b, IsSingleQuote);
  }

  /** One line's tokens: the line is cleaned, then its comma loop runs. */
  method CollectLineTokens(line: string) returns (tokens: seq<string>)
    ensures tokens == LineTokens(line)
  {
    tokens := [];
    var body := LineBody(line);
    if body.Some? {
      tokens := CollectPartTokens(SplitOn(body.value, ','));
    }
  }

  lemma PartTokensStep(parts: seq<string>, j: nat)
    requires j < |parts|
    ensures PartTokens(parts[..j + 1]) ==
      PartTokens(parts[..j]) + if KeepToken(CleanToken(parts[j])) then [CleanToken(parts[j])] else []
  {
    assert parts[..j + 1][..j] == parts[..j];
  }

  /** The comma loop proper. */
  method CollectPartTokens(parts: seq<string>) returns (tokens: seq<string>)
    ensures tokens == PartTokens(parts)
  {
    tokens := [];
    var j := 0;
    while j < |parts|
      invariant 0 <= j <= |parts|
      invariant tokens == PartTokens(parts[..j])
    {
      PartTokensStep(parts, j);
      var w := CleanToken(parts[j]);
      if KeepToken(w) {
        tokens := tokens + [w];
      }
      j := j + 1;
    }
    assert parts[..j] == parts;
  }

  /** The line loop, appending each line's tokens. */
  method CollectTokens(text: string) returns (tokens: seq<string>)
    ensures tokens == Tokens(text)
  {
    var lines := SplitLines(text);
    tokens := [];
    var i := 0;
    while i < |lines|
      invariant 0 <= i <= |lines|
      invariant tokens == LinesTokens(lines[..i])
    {
      assert lines[..i + 1][..i] == lines[..i];
      var lineTokens := CollectLineTokens(lines[i]);
      tokens := tokens + lineTokens;
      i := i + 1;
    }
    assert lines[..i] == lines;
  }

  /** The `seen`-set loop: first occurrences only, stopping once `n` entries are out. */
  method SelectDistinct(tokens: seq<string>, n: int) returns (out: seq<Entry>)
    ensures out == Templates(PyTake(DedupBy(tokens, Id), Max(n, 1)))
  {
    var seen: set<string> := {};
    out := [];
    var i := 0;
    while i < |tokens|
      invariant 0 <= i <= |tokens|
      invariant seen == KeySet(tokens[..i], Id)
      invariant out == Templates(DedupBy(tokens[..i], Id))
      invariant |out| < Max(n, 1)
    {
      var t := tokens[i];
      var before := tokens[..i];
      var after := tokens[..i + 1];
      assert after[..i] == before && after[i] == t;
      if out == [] {
        DedupKeySet(before, Id);
      }
      if t !in seen {
        seen := seen + {t};
        out := out + [Template(t)];
      }
      i := i + 1;
      if |out| >= n {
        DedupPrefix(tokens, Id, i);
        assert |out| == Max(n, 1);
        break;
      }
    }
    if i == |tokens| {
      assert tokens[..i] == tokens;
    }
  }

  /** The last-resort heuristic as the source runs it. */
  method HeuristicParse(text: string, n: int) returns (out: seq<Entry>)
    ensures out == Heuristic(text, n)
  {
    var tokens := CollectTokens(text);
    out := SelectDistinct(tokens, n);
  }

  // ---------------------------------------------------------------- the parser

  /** The parser's result: the first strategy with an answer, else the heuristic. */
  function ParseWords(text: string, n: int, decode: Decoder): seq<Entry> {
    var fenced := FencedStage(text, n, decode);
    if fenced.Some? then fenced.value
    else
      var whole := WholeStage(text, n, decode);
      if whole.Some? then whole.value
      else
        var bracket := BracketStage(text, n, decode);
        if bracket.Some? then bracket.value
        else Heuristic(text, n)
  }

  /** One strategy, run with the element loop. */
  method RunStage(data: Option<Json>, bare: bool, n: int) returns (r: Option<seq<Entry>>)
    ensures r == FromDecoded(data, bare, n)
  {
    r := None;
    if data.Some? && data.value.JList? {
      var result := CollectEntries(data.value.items, bare);
      if result != [] {
        r := Some(PyTake(result, n));
      }
    }
  }

  method RunFenced(text: string, n: int, decode: Decoder) returns (r: Option<seq<Entry>>)
    ensures r == FencedStage(text, n, decode)
  {
    r := None;
    var group := Fence.FencedArray(text);
    if group.Some? {
      r := RunStage(decode(group.value), false, n);
    }
  }

  method RunBracket(text: string, n: int, decode: Decoder) returns (r: Option<seq<Entry>>)
    ensures r == BracketStage(text, n, decode)
  {
    r := None;
    var span := BracketSpan(text);
    if span.Some? {
      r := RunStage(decode(span.value), false, n);
    }
  }

  /** `parse_words_from_text`: never fails; decoding errors fall through to the next strategy. */
  method ParseWordsFromText(text: string, n: int, decode: Decoder) returns (words: seq<Entry>)
    ensures words == ParseWords(text, n, decode)
  {
    var r := RunFenced(text, n, decode);
    if r.Some? {
      return r.value;
    }
    r := RunStage(decode(text), true, n);
    if r.Some? {
      return r.value;
    }
    r := RunBracket(text, n, decode);
    if r.Some? {
      return r.value;
    }
    words := HeuristicParse(text, n);
  }

  // ---------------------------------------------------------------- properties

  /** For a positive count the parser never returns more entries than asked for. */
  lemma ParseWordsBound(text: string, n: int, decode: Decoder)
    requires n >= 1
    ensures |ParseWords(text, n, decode)| <= n
  {
  }

  lemma {:induction false} DedupNonEmpty(s: seq<string>)
    requires s != []
    ensures DedupBy(s, Id) != []
  {
    assert s[..0] == [];
    DedupKeepsFirst(s, Id, 0);
  }

  /**
   * With a count of zero the heuristic still emits one entry: the length
   * test comes after the first append.
   */
  lemma ZeroCountStillOne(text: string, decode: Decoder)
    requires FencedStage(text, 0, decode).None? && WholeStage(text, 0, decode).None?
    requires BracketStage(text, 0, decode).None? && Tokens(text) != []
    ensures |ParseWords(text, 0, decode)| == 1
  {
    DedupNonEmpty(Tokens(text));
  }

  /** A fenced array after backtick-free prose wins over every later strategy. */
  lemma FencedArrayWins(prose: string, g: string, rest: string, n: int, decode: Decoder, items: seq<Json>)
    requires '`' !in prose && '`' !in g
    requires |g| >= 2 && g[0] == '[' && g[|g| - 1] == ']'
    requires decode(g) == Some(JList(items)) && Accepted(items, false) != []
    ensures ParseWords(prose + Fence.OpenFence + g + Fence.CloseFence + rest, n, decode) == PyTake(Accepted(items, false), n)
  {
    Fence.FencedArrayOf(prose, g, rest);
  }

  /** Without a fence, a whole-text array with an accepted element (bare strings included) is the answer. */
  lemma WholeTextWithoutFence(text: string, n: int, decode: Decoder, items: seq<Json>)
    requires '`' !in text
    requires decode(text) == Some(JList(items)) && Accepted(items, true) != []
    ensures ParseWords(text, n, decode) == PyTake(Accepted(items, true), n)
  {
    Fence.NoTickNoMatch(text, 0);
  }

  /** An array of bare strings yields nothing to the fenced and bracket strategies and one entry each to the whole-text one. */
  lemma {:induction false} BareStringsWholeTextOnly(items: seq<Json>)
    requires forall k :: 0 <= k < |items| ==> items[k].JStr?
    ensures Accepted(items, false) == []
    ensures |Accepted(items, true)| == |items|
    decreases |items|
  {
    if items != [] {
      var front := items[..|items| - 1];
      assert forall k :: 0 <= k < |front| ==> front[k] == items[k];
      BareStringsWholeTextOnly(front);
    }
  }

  /** What the structured strategies return is trimmed field by field. */
  lemma StructuredTrimmed(text: string, n: int, decode: Decoder)
    requires FencedStage(text, n, decode).Some?
    ensures forall k :: 0 <= k < |ParseWords(text, n, decode)| ==> AllTrimmed(ParseWords(text, n, decode)[k])
  {
    var g := Fence.FencedArray(text).value;
    AcceptedTrimmed(decode(g).value.items, false);
  }

  lemma {:induction false} SubsequencePrefix(a: seq<string>, b: seq<string>, k: nat)
    requires k <= |a| && Subsequence(a, b)
    ensures Subsequence(a[..k], b)
    decreases |a| - k
  {
    if k < |a| {
      SubsequencePrefix(a, b, k + 1);
      assert a[..k + 1][..k] == a[..k];
      SubsequenceDropLast(a[..k + 1], b);
    } else {
      assert a[..k] == a;
    }
  }

  function Words(es: seq<Entry>): (ws: seq<string>)
    ensures |ws| == |es|
    ensures forall k :: 0 <= k < |es| ==> ws[k] == es[k].word
  {
    seq(|es|, k requires 0 <= k < |es| => es[k].word)
  }

  /**
   * The heuristic's words are pairwise distinct, appear among the tokens in
   * token order, and each entry is the template of its word.
   */
  lemma HeuristicShape(text: string, n: int)
    ensures forall i, j :: 0 <= i < j < |Heuristic(text, n)| ==> Heuristic(text, n)[i].word != Heuristic(text, n)[j].word
    ensures Subsequence(Words(Heuristic(text, n)), Tokens(text))
    ensures forall k :: 0 <= k < |Heuristic(text, n)| ==> Heuristic(text, n)[k] == Template(Heuristic(text, n)[k].word)
  {
    var d := DedupBy(Tokens(text), Id);
    var taken := PyTake(d, Max(n, 1));
    DedupDistinct(Tokens(text), Id);
    DedupSubsequence(Tokens(text), Id);
    SubsequencePrefix(d, Tokens(text), |taken|);
    assert Words(Heuristic(text, n)) == taken;
  }

  /** The first appearance of a token is kept unless the cap has been reached. */
  lemma HeuristicKeepsFirst(text: string, n: int, i: nat)
    requires i < |Tokens(text)| && Tokens(text)[i] !in Tokens(text)[..i]
    requires |DedupBy(Tokens(text)[..i + 1], Id)| <= Max(n, 1)
    ensures Template(Tokens(text)[i]) in Heuristic(text, n)
  {
    var t := Tokens(text);
    var d := DedupBy(t, Id);
    var p := DedupBy(t[..i + 1], Id);
    forall key | key in KeySet(t[..i], Id) ensures key != t[i] {
      var j := KeyIndex(t[..i], Id, key);
      assert t[..i][j] in t[..i];
    }
    assert t[..i + 1][..i] == t[..i];
    assert t[..i + 1][i] == t[i];
    DedupKeepsFirst(t[..i + 1], Id, i);
    DedupPrefix(t, Id, i + 1);
    var m := Max(n, 1);
    assert p <= d;
    var k :| 0 <= k < |p| && p[k] == t[i];
    assert PyTake(d, m)[k] == t[i];
    assert Heuristic(text, n)[k] == Template(t[i]);
  }

  /** Lines that are blank or start with a backtick, `[` or `{` give no tokens. */
  lemma SkippedLines(line: string)
    requires Strip(line) == [] || Strip(line)[0] in "`[{"
    ensures LineTokens(line) == []
  {
  }

  /** A line starting with a digit loses everything up to and including its first `.`. */
  lemma NumberedLine(line: string)
    requires Strip(line) != [] && IsDigit(Strip(line)[0]) && '.' in Strip(line)
    ensures LineBody(line) == Some(Strip(Strip(line)[Find(Strip(line), '.') + 1..]))
  {
  }

  /** Any other kept line is only stripped: a `-` bullet stays part of the token. */
  lemma UnnumberedLine(line: string)
    requires Strip(line) != [] && !IsDigit(Strip(line)[0]) && Strip(line)[0] !in "`[{"
    ensures LineBody(line) == Some(Strip(line))
  {
  }

  // ---------------------------------------------------------------- the offline fallback

  /** The built-in vocabulary, keyed by lower-cased topic. */
  function FallbackVocab(topic: string): (ws: seq<string>)
    ensures ws != [] <==> topic == "furniture"
  {
    if topic == "furniture" then ["tuoli", "pöytä", "sohva", "sänky", "kaappi", "hylly", "matto", "lamppu"] else []
  }

  /** What `main` ends with: an exit status, or the entries it writes. */
  datatype Outcome = ExitWith(code: int) | Write(words: seq<Entry>)

  /** A reply counts as text when there is one and it is not empty. */
  predicate Truthy(t: Option<string>) { t.Some? && t.value != "" }

  /** The first client's text, else whatever the second client returned. */
  function ModelText(primary: Option<string>, secondary: Option<string>): Option<string> {
    if Truthy(primary) then primary else secondary
  }

  /**
   * The decision in `main` after both clients have been tried: no text
   * means the built-in list for the lower-cased topic or exit status 1;
   * text that parses to nothing means the (possibly empty) built-in list;
   * either way the result is cut to `count`.
   */
  function ChooseWords(primary: Option<string>, secondary: Option<string>, topic: string, count: int, decode: Decoder): Outcome {
    var text := ModelText(primary, secondary);
    var fallback := FallbackVocab(Lower(topic));
    if !Truthy(text) then
      if fallback == [] then ExitWith(1)
      else Write(PyTake(Templates(PyTake(fallback, count)), count))
    else
      var parsed := ParseWords(text.value, count, decode);
      var words := if parsed == [] then Templates(PyTake(fallback, count)) else parsed;
      Write(PyTake(words, count))
  }

  /** The program exits (with status 1) exactly when no client gave text and the topic has no built-in list. */
  lemma ExitOnlyWithoutTextOrFallback(primary: Option<string>, secondary: Option<string>, topic: string, count: int, decode: Decoder)
    ensures ChooseWords(primary, secondary, topic, count, decode).ExitWith? <==>
      !Truthy(primary) && !Truthy(secondary) && Lower(topic) != "furniture"
    ensures ChooseWords(primary, secondary, topic, count, decode).ExitWith? ==>
      ChooseWords(primary, secondary, topic, count, decode).code == 1
  {
  }

  /** For a non-negative count the written list never exceeds it, the zero-count heuristic entry included. */
  lemma WrittenWithinCount(primary: Option<string>, secondary: Option<string>, topic: string, count: int, decode: Decoder)
    requires count >= 0
    ensures ChooseWords(primary, secondary, topic, count, decode).Write? ==>
      |ChooseWords(primary, secondary, topic, count, decode).words| <= count
  {
  }

  /** Text that parses to nothing writes the built-in list, which is empty for an unknown topic: no exit. */
  lemma UnparsedTextWritesFallback(primary: Option<string>, secondary: Option<string>, topic: string, count: int, decode: Decoder)
    requires Truthy(ModelText(primary, secondary))
    requires ParseWords(ModelText(primary, secondary).value, count, decode) == []
    ensures ChooseWords(primary, secondary, topic, count, decode) ==
      Write(PyTake(Templates(PyTake(FallbackVocab(Lower(topic)), count)), count))
  {
  }

  /** Offline, the topic is matched case-insensitively against the built-in list. */
  lemma OfflineFurniture(decode: Decoder)
    ensures ChooseWords(None, None, "Furniture", 3, decode) == Write(Templates(["tuoli", "pöytä", "sohva"]))
  {
    assert Lower("Furniture") == "furniture";
    assert PyTake(FallbackVocab("furniture"), 3) == ["tuoli", "pöytä", "sohva"];
  }

  // ---------------------------------------------------------------- the prompt

  const PromptLead: string :=
    "You are a helpful assistant that generates Finnish vocabulary with translations and example sentences. "

  const PromptRest: string :=
    " as a JSON array of objects. " +
    "Each object must have exactly four fields (no extra fields): " +
    "  - 'word': the Finnish word (single word only) " +
    "  - 'translation': the English translation (one word if possible) " +
    "  - 'example': a simple example sentence in Finnish " +
    "  - 'example_translation': the English translation of the example sentence " +
    "Return ONLY valid JSON, no prose. Example format: " +
    "[{\"word\":\"aurinko\",\"translation\":\"sun\",\"example\":\"Aurinko paistaa.\",\"example_translation\":\"The sun shines.\"}, ...] "

  /** The word-list prompt; the topic and the count appear in it. */
  function PromptForTopic(topic: string, count: int): (p: string)
    ensures Contains(p, "For the topic '" + topic + "'")
    ensures Contains(p, "provide exactly " + IntToString(count) + " distinct Finnish words")
  {
    var topicPart := "For the topic '" + topic + "'";
    var countPart := "provide exactly " + IntToString(count) + " distinct Finnish words";
    var p := PromptLead + topicPart + ", " + countPart + PromptRest;
    ContainsBoth(PromptLead, topicPart, ", ", countPart, PromptRest);
    p
  }
}
