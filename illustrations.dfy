/**
 * The deterministic parts of the illustration script: file names, the
 * canvas a square illustration is centred on, the two prompts, and the
 * word-to-file mapping written next to the images.
 *
 * The image model is an input: for the entry at a position, the size of the
 * image it returned (None when the call failed, gave no candidate, gave a
 * first candidate whose content is None, or gave no part that opens as an
 * image), and the size PIL's `thumbnail` shrank it to, of which only the
 * bounds `thumbnail` guarantees are assumed. A reply whose first candidate
 * has content but no parts list, on which the source raises, is not among
 * the replies a `Pictures` value can describe.
 */
module Illustrations {
  import opened Wrappers
  import opened Text
  import opened JsonValue

  // ---------------------------------------------------------------- file names

  /** The characters a file name keeps: `[a-z0-9_-]`. */
  predicate Allowed(c: char) { 'a' <= c <= 'z' || '0' <= c <= '9' || c == '_' || c == '-' }

  /** Every run of whitespace becomes one `_`; `inRun` says the previous character was whitespace. */
  function Collapse(s: string, inRun: bool): string
    decreases |s|
  {
    if s == [] then []
    else if IsSpace(s[0]) then (if inRun then [] else "_") + Collapse(s[1..], true)
    else [s[0]] + Collapse(s[1..], false)
  }

  /** Deletes every character that is not allowed. */
  function Keep(s: string): string
    decreases |s|
  {
    if s == [] then []
    else
      var rest := Keep(s[1..]);
      if Allowed(s[0]) then [s[0]] + rest else rest
  }

  lemma {:induction false} KeepShape(s: string)
    ensures AllAllowed(Keep(s))
    decreases |s|
  {
    if s != [] {
      KeepShape(s[1..]);
    }
  }

  /** `_sanitize_filename`: strip, lower-case, whitespace runs to `_`, drop the rest; "word" when nothing is left. */
  function Sanitize(s: string): (r: string)
    ensures r != [] && AllAllowed(r)
  {
    var k := Keep(Collapse(Lower(Strip(s)), false));
    KeepShape(Collapse(Lower(Strip(s)), false));
    if k == [] then "word" else k
  }

  predicate AllAllowed(s: string) { forall i :: 0 <= i < |s| ==> Allowed(s[i]) }

  predicate Letters(s: string) { forall i :: 0 <= i < |s| ==> 'A' <= s[i] <= 'Z' || 'a' <= s[i] <= 'z' }

  lemma LowerConcat(a: string, b: string)
    ensures Lower(a + b) == Lower(a) + Lower(b)
  {
  }

  lemma LowerLetters(a: string)
    requires Letters(a)
    ensures AllAllowed(Lower(a)) && HasNo(Lower(a), IsSpace)
  {
  }

  lemma {:induction false} KeepConcat(a: string, b: string)
    ensures Keep(a + b) == Keep(a) + Keep(b)
    decreases |a|
  {
    if a != [] {
      assert (a + b)[0] == a[0];
      assert (a + b)[1..] == a[1..] + b;
      KeepConcat(a[1..], b);
    } else {
      assert a + b == b;
    }
  }

  lemma {:induction false} KeepAllowed(a: string)
    requires AllAllowed(a)
    ensures Keep(a) == a
    decreases |a|
  {
    if a != [] {
      KeepAllowed(a[1..]);
    }
  }

  lemma {:induction false} CollapseWord(a: string, b: string, inRun: bool)
    requires a != [] && HasNo(a, IsSpace)
    ensures Collapse(a + b, inRun) == a + Collapse(b, false)
    decreases |a|
  {
    assert (a + b)[0] == a[0];
    assert (a + b)[1..] == a[1..] + b;
    if |a| > 1 {
      CollapseWord(a[1..], b, false);
    } else {
      assert a[1..] + b == b;
    }
  }

  lemma StripPadded(a: string, b: string)
    requires a != [] && b != [] && Letters(a) && Letters(b)
    ensures Strip(" " + a + ", " + b + "! ") == a + ", " + b + "!"
  {
    var s := " " + a + ", " + b + "! ";
    var t := a + ", " + b + "!";
    var s1 := s[1..];
    assert s1 == t + " ";
    assert IsSpace(s[0]);
    assert StripSet(s, IsSpace) == StripSet(s1, IsSpace);
    assert s1[0] == a[0];
    assert StripSet(s1, IsSpace) == StripSet(s1[..|s1| - 1], IsSpace);
    assert s1[..|s1| - 1] == t;
    StripSetNoop(t, IsSpace);
  }

  lemma LowerPadded(a: string, b: string)
    ensures Lower(a + ", " + b + "!") == Lower(a) + ", " + Lower(b) + "!"
  {
    LowerConcat(a + ", " + b, "!");
    LowerConcat(a + ", ", b);
    LowerConcat(a, ", ");
  }

  lemma CollapsePadded(la: string, lb: string)
    requires la != [] && lb != [] && HasNo(la, IsSpace) && HasNo(lb, IsSpace)
    ensures Collapse(la + ", " + lb + "!", false) == la + "," + "_" + lb + "!"
  {
    var a := la + [','];
    var b := lb + ['!'];
    GappedShape(la, lb);
    NoSpaceSnoc(la, ',');
    NoSpaceSnoc(lb, '!');
    CollapseWord(a, [' '] + b, false);
    CollapseGap(b);
    assert Collapse(b, true) == b by {
      CollapseWord(b, [], true);
      assert b + [] == b;
    }
  }

  lemma GappedShape(la: string, lb: string)
    ensures la + ", " + lb + "!" == (la + [',']) + ([' '] + (lb + ['!']))
    ensures la + "," + "_" + lb + "!" == (la + [',']) + (['_'] + (lb + ['!']))
  {
  }

  lemma NoSpaceSnoc(s: string, c: char)
    requires HasNo(s, IsSpace) && !IsSpace(c)
    ensures HasNo(s + [c], IsSpace)
  {
  }

  lemma CollapseGap(b: string)
    ensures Collapse([' '] + b, false) == ['_'] + Collapse(b, true)
  {
    assert ([' '] + b)[1..] == b;
  }

  lemma KeepCons(c: char, x: string)
    ensures Keep([c] + x) == (if Allowed(c) then [c] else []) + Keep(x)
  {
    assert ([c] + x)[1..] == x;
  }

  lemma KeepPadded(la: string, lb: string)
    requires AllAllowed(la) && AllAllowed(lb)
    ensures Keep(la + "," + "_" + lb + "!") == la + "_" + lb
  {
    var t1 := lb + "!";
    KeepDropsBang(lb);
    KeepCons('_', t1);
    KeepCons(',', ['_'] + t1);
    KeepConcat(la, [','] + (['_'] + t1));
    KeepAllowed(la);
    PaddedShape(la, lb);
  }

  lemma KeepDropsBang(lb: string)
    requires AllAllowed(lb)
    ensures Keep(lb + "!") == lb
  {
    KeepConcat(lb, "!");
    KeepAllowed(lb);
    KeepCons('!', []);
    assert "!" == ['!'] + [];
  }

  lemma PaddedShape(la: string, lb: string)
    ensures la + "," + "_" + lb + "!" == la + ([','] + (['_'] + (lb + "!")))
  {
  }

  /** A capitalised greeting of two words loses its case, its punctuation and its padding, and the gap becomes `_`. */
  lemma SanitizeTwoWords(a: string, b: string)
    requires a != [] && b != [] && Letters(a) && Letters(b)
    ensures Sanitize(" " + a + ", " + b + "! ") == Lower(a) + "_" + Lower(b)
  {
    StripPadded(a, b);
    LowerPadded(a, b);
    LowerLetters(a);
    LowerLetters(b);
    CollapsePadded(Lower(a), Lower(b));
    KeepPadded(Lower(a), Lower(b));
  }

  /** A sanitised name sanitises to itself. */
  lemma SanitizeIdempotent(s: string)
    ensures Sanitize(Sanitize(s)) == Sanitize(s)
  {
    var r := Sanitize(s);
    StripSetNoop(r, IsSpace);
    assert Lower(r) == r;
    CollapseWord(r, [], false);
    assert r + [] == r;
    KeepAllowed(r);
  }

  /** A name made only of allowed characters is kept as it is: digits, `_` and `-` survive with the letters. */
  lemma SanitizeKeepsSafeName(s: string)
    requires s != [] && AllAllowed(s)
    ensures Sanitize(s) == s
  {
    StripSetNoop(s, IsSpace);
    assert Lower(s) == s;
    CollapseWord(s, [], false);
    assert s + [] == s;
    KeepAllowed(s);
  }

  lemma EmptyNameIsWord()
    ensures Sanitize("") == "word"
  {
  }

  /**
   * A name of which nothing survives becomes `word`: no character is
   * allowed, none is an ASCII capital (which would lower to an allowed
   * letter) and none is whitespace (which would become `_`).
   */
  lemma NothingKeptIsWord(s: string)
    requires forall i :: 0 <= i < |s| ==> !Allowed(s[i]) && !IsUpper(s[i]) && !IsSpace(s[i])
    ensures Sanitize(s) == "word"
  {
    StripSetNoop(s, IsSpace);
    assert Lower(s) == s;
    if s != [] {
      CollapseWord(s, [], false);
      assert s + [] == s;
    }
    KeepNone(s);
  }

  /** A blank name becomes `word`. */
  lemma BlankNameIsWord(s: string)
    requires forall i :: 0 <= i < |s| ==> IsSpace(s[i])
    ensures Sanitize(s) == "word"
  {
    StripCutsOnlySpace(s);
  }

  lemma {:induction false} KeepNone(s: string)
    requires forall i :: 0 <= i < |s| ==> !Allowed(s[i])
    ensures Keep(s) == []
    decreases |s|
  {
    if s != [] {
      KeepNone(s[1..]);
    }
  }

  const FilePrefix: string := "word_"
  const FileSuffix: string := ".png"

  /** The name the generator saves a word's image under. */
  function SavedFileName(word: string, topic: Option<string>): string {
    FilePrefix + Sanitize(word) + TopicFragment(topic) + FileSuffix
  }

  /** `_<topic>` with the topic sanitised, or nothing for a missing or empty topic. */
  function TopicFragment(topic: Option<string>): (r: string)
    ensures AllAllowed(r)
    ensures r == [] <==> topic.None? || topic.value == ""
  {
    if topic.Some? && topic.value != "" then "_" + Sanitize(topic.value) else ""
  }

  /** Every saved name is `word_<something>.png`, the something never empty. */
  lemma FileNameShape(word: string, topic: Option<string>)
    ensures var name := SavedFileName(word, topic);
      |name| > |FilePrefix| + |FileSuffix| && name[..|FilePrefix|] == FilePrefix &&
      name[|name| - |FileSuffix|..] == FileSuffix && AllAllowed(name[|FilePrefix|..|name| - |FileSuffix|])
  {
    var middle := Sanitize(word) + TopicFragment(topic);
    AllAllowedConcat(Sanitize(word), TopicFragment(topic));
    assert SavedFileName(word, topic) == FilePrefix + middle + FileSuffix;
    Sandwich(FilePrefix, middle, FileSuffix);
  }

  lemma AllAllowedConcat(a: string, b: string)
    requires AllAllowed(a) && AllAllowed(b)
    ensures AllAllowed(a + b)
  {
  }

  /** The three parts of `p + m + q` can be read back by position. */
  lemma Sandwich(p: string, m: string, q: string)
    ensures var s := p + m + q;
      |s| == |p| + |m| + |q| && s[..|p|] == p && s[|s| - |q|..] == q && s[|p|..|s| - |q|] == m
  {
    var s := p + m + q;
    assert s[..|p|] == p;
    assert s[|s| - |q|..] == q;
    assert s[|p|..|s| - |q|] == m;
  }

  /** Without a topic, or with an empty one, the name has no topic suffix. */
  lemma NoTopicNoSuffix(word: string, topic: Option<string>)
    requires topic.None? || topic.value == ""
    ensures SavedFileName(word, topic) == FilePrefix + Sanitize(word) + FileSuffix
  {
    assert FilePrefix + Sanitize(word) + [] == FilePrefix + Sanitize(word);
  }

  // ---------------------------------------------------------------- the canvas

  const CanvasWidth: int := 720
  const Margin: int := 40
  /** The thumbnail bound: the canvas width less both margins. */
  const MaxSize: int := CanvasWidth - 2 * Margin

  /**
   * The first two `:`-separated parts as integers, any further parts
   * ignored; (9, 16) when there are fewer (IndexError) or one is not an
   * integer (ValueError).
   */
  function ParseAspect(aspect: string): (ratio: (int, int))
    ensures (|SplitOn(aspect, ':')| < 2) ==> ratio == (9, 16)
    ensures var parts := SplitOn(aspect, ':');
      |parts| >= 2 && (ParseInt(parts[0]).None? || ParseInt(parts[1]).None?) ==> ratio == (9, 16)
    ensures var parts := SplitOn(aspect, ':');
      |parts| >= 2 && ParseInt(parts[0]).Some? && ParseInt(parts[1]).Some? ==>
        ratio == (ParseInt(parts[0]).value, ParseInt(parts[1]).value)
  {
    var parts := SplitOn(aspect, ':');
    if |parts| < 2 then (9, 16)
    else
      match (ParseInt(parts[0]), ParseInt(parts[1]))
      case (Some(w), Some(h)) => (w, h)
      case _ => (9, 16)
  }

  /**
   * The canvas height, `int(720 * h / w)`: truncated toward zero.  None
   * when the canvas cannot be made: a zero ratio width divides by zero, and
   * PIL refuses a negative height.
   */
  function CanvasHeight(ratio: (int, int)): (height: Option<int>)
    ensures height.Some? ==> height.value >= 0
    ensures height.None? <==> ratio.0 == 0 || TruncDiv(CanvasWidth * ratio.1, ratio.0) < 0
  {
    if ratio.0 == 0 then None
    else
      var h := TruncDiv(CanvasWidth * ratio.1, ratio.0);
      if h < 0 then None else Some(h)
  }

  /** The canvas height for an aspect argument. */
  function Canvas(aspect: string): Option<int> {
    CanvasHeight(ParseAspect(aspect))
  }

  /** What `thumbnail((640, 640))` guarantees: it only shrinks, and never past 640 in either direction. */
  predicate ThumbnailFits(original: (int, int), thumb: (int, int)) {
    0 < thumb.0 <= Min(MaxSize, original.0) && 0 < thumb.1 <= Min(MaxSize, original.1)
  }

  /** Where the illustration goes: floor-halved gaps on each axis. */
  datatype Placement = Placement(height: int, x: int, y: int)

  function Place(height: int, thumb: (int, int)): Placement {
    Placement(height, (CanvasWidth - thumb.0) / 2, (height - thumb.1) / 2)
  }

  /** For positive ratio parts the height is the floor of 720 * h / w. */
  lemma CanvasTruncates(w: int, h: int)
    requires w > 0 && h > 0
    ensures CanvasHeight((w, h)).Some?
    ensures var c := CanvasHeight((w, h)).value; c * w <= CanvasWidth * h < (c + 1) * w
  {
  }

  /** A ratio written as two integers is read back as those integers, whatever `:`-separated parts follow. */
  lemma ParseWrittenRatio(w: int, h: int, rest: string)
    requires rest == [] || rest[0] == ':'
    ensures ParseAspect(IntToString(w) + ":" + IntToString(h) + rest) == (w, h)
  {
    var a, b := IntToString(w), IntToString(h);
    NoColonInInt(w);
    NoColonInInt(h);
    if rest == [] {
      assert a + ":" + b + rest == a + [':'] + b;
      SplitOnPair(a, b, ':');
    } else {
      SplitOnLead(a, b, rest, ':');
    }
    IntRoundTrip(w);
    IntRoundTrip(h);
  }

  /** The first two pieces of `a:b:...`. */
  lemma SplitOnLead(a: string, b: string, rest: string, c: char)
    requires c !in a && c !in b && rest != [] && rest[0] == c
    ensures var parts := SplitOn(a + [c] + b + rest, c); |parts| >= 2 && parts[0] == a && parts[1] == b
  {
    var s := a + [c] + b + rest;
    assert s[..|a|] == a && s[|a|] == c;
    SplitOnAt(s, c, |a|);
    var t := s[|a| + 1..];
    assert t == b + rest;
    assert t[..|b|] == b && t[|b|] == c;
    SplitOnAt(t, c, |b|);
  }

  lemma NoColonInInt(n: int)
    ensures ':' !in IntToString(n)
  {
    if n < 0 {
      assert IntToString(n) == "-" + NatToString(-n);
    }
  }

  lemma SplitOnPair(a: string, b: string, c: char)
    requires c !in a && c !in b
    ensures SplitOn(a + [c] + b, c) == [a, b]
  {
    var s := a + [c] + b;
    assert s[..|a|] == a && s[|a|] == c;
    assert s[|a| + 1..] == b;
    SplitOnSingle(b, c);
    FindFirst(s, c, |a|);
  }

  /** Text without a `:` falls back to 9:16, the 720 x 1280 canvas. */
  lemma NoColonIsPortrait(aspect: string)
    requires ':' !in aspect
    ensures ParseAspect(aspect) == (9, 16) && Canvas(aspect) == Some(1280)
  {
    SplitOnSingle(aspect, ':');
  }

  /** "9:16" gives the same canvas. */
  lemma PortraitCanvas()
    ensures IntToString(9) + ":" + IntToString(16) == "9:16"
    ensures ParseAspect(IntToString(9) + ":" + IntToString(16)) == (9, 16)
    ensures Canvas(IntToString(9) + ":" + IntToString(16)) == Some(1280)
  {
    ParseWrittenRatio(9, 16, "");
    assert IntToString(9) + ":" + IntToString(16) + "" == IntToString(9) + ":" + IntToString(16);
    RatioText(9, 16, "9", "16");
    RatioHeights();
    var t := IntToString(9) + ":" + IntToString(16);
    assert Canvas(t) == CanvasHeight((9, 16));
  }

  /** The text `str(w) + ":" + str(h)` for two small ratios. */
  lemma RatioText(w: nat, h: nat, ws: string, hs: string)
    requires (w, h, ws, hs) in {(9, 16, "9", "16"), (16, 9, "16", "9")}
    ensures IntToString(w) + ":" + IntToString(h) == ws + ":" + hs
  {
    assert NatToString(16) == "16";
    assert NatToString(9) == "9";
  }

  /**
   * Horizontally the illustration keeps at least the margin, and the gaps to
   * its left and right differ by at most one pixel.
   */
  lemma CenteredHorizontally(height: int, original: (int, int), thumb: (int, int))
    requires ThumbnailFits(original, thumb)
    ensures var p := Place(height, thumb);
      p.x >= Margin && 0 <= (CanvasWidth - thumb.0 - p.x) - p.x <= 1
  {
  }

  /** Vertically the offset is floored, and negative on a canvas shorter than the image, as 16:9 gives. */
  lemma LandscapeOverflows()
    ensures IntToString(16) + ":" + IntToString(9) == "16:9"
    ensures ParseAspect(IntToString(16) + ":" + IntToString(9)) == (16, 9)
    ensures Canvas(IntToString(16) + ":" + IntToString(9)) == Some(405)
    ensures Place(405, (640, 640)).y == -118
  {
    ParseWrittenRatio(16, 9, "");
    assert IntToString(16) + ":" + IntToString(9) + "" == IntToString(16) + ":" + IntToString(9);
    RatioText(16, 9, "16", "9");
    RatioHeights();
    var t := IntToString(16) + ":" + IntToString(9);
    assert Canvas(t) == CanvasHeight((16, 9));
  }

  /**
   * Negative ratio parts: a negative height is refused, while a width far
   * below zero truncates the height to 0, which `Image.new` accepts.
   */
  lemma NegativeRatios()
    ensures CanvasHeight((9, -16)).None?
    ensures CanvasHeight((-1000, 1)) == Some(0)
  {
    assert TruncDiv(CanvasWidth * -16, 9) == -1280;
    assert TruncDiv(CanvasWidth * 1, -1000) == 0;
  }

  /** The heights of the portrait and landscape canvases. */
  lemma RatioHeights()
    ensures CanvasHeight((9, 16)) == Some(1280) && CanvasHeight((16, 9)) == Some(405)
  {
  }

  // ---------------------------------------------------------------- the word prompt

  const Style: string :=
    "Illustration style: Modern flat illustration with clean lines and a soft, muted color palette. "
    + "Details are minimal but effective, focusing on essential elements like clothing textures, subtle shadows for depth, and distinct objects. "
    + "The overall aesthetic is warm, inviting, and slightly whimsical, reminiscent of casual lifestyle or explainer video graphics. "
    + "The style avoids harsh outlines or heavy shading, opting for a light and airy feel. "

  /** " in the '<topic>' category" for a non-empty topic, nothing otherwise. */
  function TopicContext(topic: Option<string>): string {
    if topic.Some? && topic.value != "" then " in the '" + topic.value + "' category" else ""
  }

  const WordOpening: string := "Create a visually engaging digital illustration of the Finnish word "

  /** The quoted word and its category. */
  function Named(word: string, topic: Option<string>): string {
    "'" + word + "'" + TopicContext(topic)
  }

  function WordPromptRest(word: string): string {
    " Do not include any text, captions in the image. "
    + "Focus on depicting the object or concept clearly and centrally positioned in the center of the image. "
    + "The illustrated object should be prominently centered with generous whitespace or soft background around it. "
    + "The image should be a single, clean, minimalist illustration that clearly represents the meaning of '" + word + "'. "
    + "Use the soft, warm color palette and flat design style. "
  }

  /** The prompt for one word. */
  function WordPrompt(word: string, topic: Option<string>): string {
    WordOpening + Named(word, topic) + ". " + Style + WordPromptRest(word)
  }

  /** The prompt names the word, followed by its category when there is a topic, and carries the style. */
  lemma WordPromptMentions(word: string, topic: Option<string>)
    ensures Contains(WordPrompt(word, topic), "'" + word + "'" + TopicContext(topic))
    ensures Contains(WordPrompt(word, topic), Style)
  {
    ContainsBoth(WordOpening, Named(word, topic), ". ", Style, WordPromptRest(word));
  }

  /** The category fragment appears exactly when the topic is non-empty. */
  lemma TopicContextWhenTopic(topic: Option<string>)
    ensures TopicContext(topic) == "" <==> topic.None? || topic.value == ""
  {
    if topic.Some? && topic.value != "" {
      assert |TopicContext(topic)| == |topic.value| + 19;
    }
  }

  // ---------------------------------------------------------------- the scene prompt

  /** Python truthiness of a decoded value. */
  predicate Truthy(v: Json) {
    match v
    case JNull => false
    case JBool(b) => b
    case JNum(n) => n != 0
    case JStr(t) => t != ""
    case JList(xs) => xs != []
    case JObject(m) => m != map[]
  }

  /**
   * What a `for` loop sees when iterating a decoded value whose elements then
   * have `.get` called on them: a list's items; nothing for an empty string
   * or object; None (the loop raises) for anything else, since the
   * characters of a string and the keys of an object have no `.get`.
   */
  function Members(v: Json): Option<seq<Json>> {
    match v
    case JList(xs) => Some(xs)
    case JStr(t) => if t == "" then Some([]) else None
    case JObject(m) => if m == map[] then Some([]) else None
    case _ => None
  }

  /** "name (gender, age)" with the defaults for absent fields. */
  function Describe(character: map<string, Json>): string {
    Str(Get(character, "name", JStr("Unnamed"))) + " (" +
    Str(Get(character, "gender", JStr("unspecified gender"))) + ", " +
    Str(Get(character, "age", JStr("unspecified age"))) + ")"
  }

  /** The descriptions of all characters; None when one of them is not an object. */
  function Descriptions(characters: seq<Json>): (r: Option<seq<string>>)
    ensures r.Some? ==> |r.value| == |characters|
    decreases |characters|
  {
    if characters == [] then Some([])
    else
      match Descriptions(characters[..|characters| - 1])
      case None => None
      case Some(ds) =>
        match characters[|characters| - 1]
        case JObject(c) => Some(ds + [Describe(c)])
        case _ => None
  }

  /** The dialogue lines' texts; None when a line is not an object or its text is not a string. */
  function Lines(dialogues: seq<Json>): Option<seq<string>>
    decreases |dialogues|
  {
    if dialogues == [] then Some([])
    else
      match Lines(dialogues[..|dialogues| - 1])
      case None => None
      case Some(ts) =>
        match dialogues[|dialogues| - 1]
        case JObject(d) =>
          (match Get(d, "text", JStr(""))
           case JStr(t) => Some(ts + [t])
           case _ => None)
        case _ => None
  }

  /** The first 40 whitespace-separated words of the dialogue, joined by single spaces. */
  function PreviewWords(allLines: string): string {
    Join(PyTake(SplitWs(allLines), 40), " ")
  }

  /** The dialogue preview: "..." follows when the dialogue has more than 40 words. */
  function Preview(allLines: string): string {
    PreviewWords(allLines) + if |SplitWs(allLines)| > 40 then "..." else ""
  }

  /** The character clause: the descriptions joined by "; ", or "unspecified characters". */
  function CharacterText(descriptions: seq<string>): string {
    var joined := Join(descriptions, "; ");
    if joined == "" then NoCharacters else joined
  }

  const NoCharacters: string := "unspecified characters"

  const SceneOpening: string :=
    "Create a visually engaging digital illustration. "

  const SceneRules: string :=
    " Do not include any text or captions in the image. Ensure the image is a single, clear illustration. "

  function SceneHead(language: string, tone: string, description: string): string {
    SceneOpening + Style + SceneRules +
    "The language of the script is " + language + ", and the tone is " + tone + ". " +
    "Scene description: " + description + " "
  }

  function CharactersClause(characters: string): string {
    "The characters involved are: " + characters + ". "
  }

  function SceneTail(preview: string): string {
    "Depict them naturally in a setting that fits the tone and context. " +
    "The mood and expressions should reflect the feel of this sample dialogue: '" + preview + "'. "
  }

  /** The prompt text for given pieces. */
  function ScenePrompt(language: string, tone: string, description: string, characters: string, preview: string): string {
    SceneHead(language, tone, description) + CharactersClause(characters) + SceneTail(preview)
  }

  /** What the scene prompt is filled with. */
  datatype Scene = Scene(language: string, tone: string, description: string, characters: string, preview: string)

  /** The pieces `create_generic_prompt` reads from the data; None when the data has a shape on which it raises. */
  function SceneOf(data: Json): Option<Scene> {
    if !data.JObject? then None
    else
      SceneOfParts(Get(data.fields, "metadata", JObject(map[])), Get(data.fields, "idea", JObject(map[])),
                   Get(data.fields, "dialogue_list", JList([])))
  }

  /** The pieces from the `metadata`, `idea` and `dialogue_list` values. */
  function SceneOfParts(metadata: Json, idea: Json, dialogueList: Json): Option<Scene> {
    if !metadata.JObject? || !idea.JObject? then None
    else
      SceneOfFields(Get(metadata.fields, "language", JStr("Unknown language")), Get(metadata.fields, "tone", JStr("neutral")),
                    Get(idea.fields, "description", JStr("")), Get(idea.fields, "characters", JList([])), dialogueList)
  }

  /** The pieces from the individual values read. */
  function SceneOfFields(language: Json, tone: Json, description: Json, characters: Json, dialogueList: Json): Option<Scene> {
    var cs := Members(characters);
    var dl := Members(dialogueList);
    if cs.None? || dl.None? then None
    else SceneOfLists(language, tone, description, Descriptions(cs.value), Lines(dl.value))
  }

  /** The pieces, once the characters are described and the dialogue texts collected (None when either raised). */
  function SceneOfLists(language: Json, tone: Json, description: Json, ds: Option<seq<string>>, ts: Option<seq<string>>): Option<Scene> {
    if ds.None? || ts.None? then None
    else Some(SceneFrom(language, tone, description, ds.value, ts.value))
  }

  /** The pieces, once the characters are described and the dialogue texts collected. */
  function SceneFrom(language: Json, tone: Json, description: Json, descriptions: seq<string>, texts: seq<string>): Scene {
    Scene(Str(language), Str(tone),
          if Truthy(description) then Str(description) else "No explicit description provided.",
          CharacterText(descriptions),
          Preview(Join(texts, " ")))
  }

  /** `create_generic_prompt`. */
  function GenericPrompt(data: Json): Option<string> {
    match SceneOf(data)
    case None => None
    case Some(sc) => Some(ScenePrompt(sc.language, sc.tone, sc.description, sc.characters, sc.preview))
  }

  /** `create_generic_prompt` with its loop over the characters. */
  method CreateGenericPrompt(data: Json) returns (prompt: Option<string>)
    ensures prompt == GenericPrompt(data)
  {
    var scene: Option<Scene> := None;
    if data.JObject? {
      var metadata := Get(data.fields, "metadata", JObject(map[]));
      var idea := Get(data.fields, "idea", JObject(map[]));
      if metadata.JObject? && idea.JObject? {
        scene := ReadScene(Get(metadata.fields, "language", JStr("Unknown language")), Get(metadata.fields, "tone", JStr("neutral")),
                           Get(idea.fields, "description", JStr("")), Get(idea.fields, "characters", JList([])),
                           Get(data.fields, "dialogue_list", JList([])));
      }
    }
    assert scene == SceneOf(data);
    if scene.None? {
      return None;
    }
    var sc := scene.value;
    prompt := Some(ScenePrompt(sc.language, sc.tone, sc.description, sc.characters, sc.preview));
  }

  /** The scene pieces, with the characters described one by one. */
  method ReadScene(language: Json, tone: Json, description: Json, characters: Json, dialogueList: Json)
    returns (scene: Option<Scene>)
    ensures scene == SceneOfFields(language, tone, description, characters, dialogueList)
  {
    scene := None;
    var cs := Members(characters);
    var dl := Members(dialogueList);
    if cs.Some? && dl.Some? {
      var descriptions := DescribeAll(cs.value);
      var texts := Lines(dl.value);
      scene := SceneOfLists(language, tone, description, descriptions, texts);
    }
  }

  /** The loop over the characters, appending one description each. */
  method DescribeAll(cs: seq<Json>) returns (r: Option<seq<string>>)
    ensures r == Descriptions(cs)
  {
    var descriptions: seq<string> := [];
    var i := 0;
    while i < |cs|
      invariant 0 <= i <= |cs|
      invariant Descriptions(cs[..i]) == Some(descriptions)
    {
      DescriptionsGrow(cs, i);
      if !cs[i].JObject? {
        DescriptionsFaultPersists(cs, i + 1);
        return None;
      }
      descriptions := descriptions + [Describe(cs[i].fields)];
      i := i + 1;
    }
    assert cs[..i] == cs;
    r := Some(descriptions);
  }

  lemma DescriptionsGrow(cs: seq<Json>, i: nat)
    requires i < |cs| && Descriptions(cs[..i]).Some?
    ensures !cs[i].JObject? ==> Descriptions(cs[..i + 1]).None?
    ensures cs[i].JObject? ==> Descriptions(cs[..i + 1]) == Some(Descriptions(cs[..i]).value + [Describe(cs[i].fields)])
  {
    assert cs[..i + 1][..i] == cs[..i];
  }

  lemma {:induction false} DescriptionsFaultPersists(characters: seq<Json>, i: nat)
    requires i <= |characters| && Descriptions(characters[..i]).None?
    ensures Descriptions(characters).None?
    decreases |characters| - i
  {
    if i == |characters| {
      assert characters[..i] == characters;
    } else {
      var front := characters[..|characters| - 1];
      assert front[..i] == characters[..i];
      DescriptionsFaultPersists(front, i);
    }
  }

  /** The preview is the dialogue's first 40 words, so at most 40 of them. */
  lemma PreviewIsFirstWords(allLines: string)
    ensures SplitWs(PreviewWords(allLines)) == PyTake(SplitWs(allLines), 40)
    ensures |SplitWs(PreviewWords(allLines))| <= 40
  {
    var words := PyTake(SplitWs(allLines), 40);
    assert forall k :: 0 <= k < |words| ==> words[k] == SplitWs(allLines)[k];
    SplitWsOfJoin(words);
  }

  lemma {:induction false} DescribedCharacters(characters: seq<Json>, k: nat)
    requires Descriptions(characters).Some? && k < |characters|
    ensures characters[k].JObject? && Descriptions(characters).value[k] == Describe(characters[k].fields)
    decreases |characters|
  {
    var front := characters[..|characters| - 1];
    if k < |front| {
      DescribedCharacters(front, k);
    }
  }

  /** Each character renders as "name (gender, age)". */
  lemma DescribeShape(character: map<string, Json>)
    ensures var d := Describe(character); d != [] && '(' in d && d[|d| - 1] == ')'
  {
    var d := Describe(character);
    var name := Str(Get(character, "name", JStr("Unnamed")));
    assert d[|name| + 1] == '(';
  }

  /** The clause is "unspecified characters" exactly when there are no characters. */
  lemma NoCharactersUnspecified(characters: seq<Json>)
    requires Descriptions(characters).Some?
    ensures CharacterText(Descriptions(characters).value) == NoCharacters <==> characters == []
  {
    var ds := Descriptions(characters).value;
    if characters != [] {
      DescribedCharacters(characters, 0);
      DescribeShape(characters[0].fields);
      var joined := Join(ds, "; ");
      JoinStartsWithFirst(ds, "; ");
      InPrefix('(', joined, |ds[0]|);
      NoParenInNoCharacters();
    }
  }

  lemma InPrefix(c: char, s: string, n: nat)
    requires n <= |s| && c in s[..n]
    ensures c in s
  {
    var i :| 0 <= i < n && s[..n][i] == c;
    assert s[i] == c;
  }

  lemma NoParenInNoCharacters()
    ensures '(' !in NoCharacters
  {
  }

  /** A join starts with its first part. */
  lemma JoinStartsWithFirst(parts: seq<string>, sep: string)
    requires parts != []
    ensures |Join(parts, sep)| >= |parts[0]| && Join(parts, sep)[..|parts[0]|] == parts[0]
  {
  }

  /** The prompt carries the character clause. */
  lemma ScenePromptNamesCharacters(language: string, tone: string, description: string, characters: string, preview: string)
    ensures Contains(ScenePrompt(language, tone, description, characters, preview), CharactersClause(characters))
  {
    ContainsInside(SceneHead(language, tone, description), CharactersClause(characters), SceneTail(preview));
  }

  /** The scene title is read but plays no part in the prompt. */
  lemma TitleIgnored(fields: map<string, Json>, idea: map<string, Json>, title: Json)
    ensures SceneOf(JObject(fields["idea" := JObject(idea["title" := title])])) ==
            SceneOf(JObject(fields["idea" := JObject(idea)]))
  {
    var a := idea["title" := title];
    assert Get(a, "characters", JList([])) == Get(idea, "characters", JList([]));
    assert Get(a, "description", JStr("")) == Get(idea, "description", JStr(""));
    assert SceneOfParts(Get(fields, "metadata", JObject(map[])), JObject(a), Get(fields, "dialogue_list", JList([]))) ==
           SceneOfParts(Get(fields, "metadata", JObject(map[])), JObject(idea), Get(fields, "dialogue_list", JList([])));
  }

  /** Neither is the script length. */
  lemma LengthIgnored(fields: map<string, Json>, metadata: map<string, Json>, length: Json)
    ensures SceneOf(JObject(fields["metadata" := JObject(metadata["length" := length])])) ==
            SceneOf(JObject(fields["metadata" := JObject(metadata)]))
  {
    var a := metadata["length" := length];
    assert Get(a, "language", JStr("Unknown language")) == Get(metadata, "language", JStr("Unknown language"));
    assert Get(a, "tone", JStr("neutral")) == Get(metadata, "tone", JStr("neutral"));
    assert SceneOfParts(JObject(a), Get(fields, "idea", JObject(map[])), Get(fields, "dialogue_list", JList([]))) ==
           SceneOfParts(JObject(metadata), Get(fields, "idea", JObject(map[])), Get(fields, "dialogue_list", JList([])));
  }

  // ---------------------------------------------------------------- one word's illustration

  /** What the image model returned for a word: the image's size and the size `thumbnail` shrank it to. */
  datatype Picture = Picture(original: (int, int), thumb: (int, int))

  /** The image model per position in the words file; None when it returned no usable image. */
  type Pictures = nat -> Option<Picture>

  /**
   * `generate_illustration_from_word`, given the canvas height its aspect
   * argument gives (`Canvas`): nothing is saved without an image; with one,
   * the canvas is made (raising on a zero ratio width or a negative height)
   * and the image saved under its file name.
   */
  datatype WordImage = NoImage | Saved(filename: string, height: int, placement: Placement) | Raised

  function GenerateForWord(word: string, topic: Option<string>, canvas: Option<int>, picture: Option<Picture>): WordImage {
    if picture.None? then NoImage
    else
      match canvas
      case None => Raised
      case Some(height) => Saved(SavedFileName(word, topic), height, Place(height, picture.value.thumb))
  }

  /**
   * A saved illustration is centred horizontally within the margins, and on
   * a canvas at least as tall as the thumbnail bound it lies wholly inside
   * the canvas vertically too.
   */
  lemma SavedWithinCanvas(word: string, topic: Option<string>, aspect: string, picture: Picture)
    requires ThumbnailFits(picture.original, picture.thumb)
    requires GenerateForWord(word, topic, Canvas(aspect), Some(picture)).Saved?
    ensures var r := GenerateForWord(word, topic, Canvas(aspect), Some(picture));
      r.filename == SavedFileName(word, topic) && Canvas(aspect) == Some(r.height) &&
      Margin <= r.placement.x && r.placement.x + picture.thumb.0 <= CanvasWidth - Margin &&
      (r.height >= MaxSize ==> 0 <= r.placement.y && r.placement.y + picture.thumb.1 <= r.height)
  {
    CenteredHorizontally(Canvas(aspect).value, picture.original, picture.thumb);
  }

  /** Generation raises exactly when an image came back and the canvas cannot be made. */
  lemma GenerateRaises(word: string, topic: Option<string>, canvas: Option<int>, picture: Option<Picture>)
    ensures GenerateForWord(word, topic, canvas, picture).Raised? <==> picture.Some? && canvas.None?
    ensures GenerateForWord(word, topic, canvas, picture).NoImage? <==> picture.None?
  {
  }

  // ---------------------------------------------------------------- the mapping

  /** One entry of `mapping.json`. */
  datatype Record = Record(index: nat, word: string, filename: string)

  /**
   * The word an element of the words file stands for: an object's "word"
   * (its `str` when absent); any other element is wrapped as `{'word': str(w)}`.
   */
  function WordOf(w: Json): Json {
    if w.JObject? then Get(w.fields, "word", JStr(Str(w))) else JStr(Str(w))
  }

  /** Where the loop over the words stops: sanitising raises on a word that is not text, and so may generation. */
  predicate Fails(w: Json, canvas: Option<int>, picture: Option<Picture>) {
    !WordOf(w).JStr? || (picture.Some? && canvas.None?)
  }

  /** How `main` names a word's file; the mapping is built for any naming rule, and `main` uses `NamerFor`. */
  type FileNamer = string -> string

  /** `main`'s own computation of the file name, the same rule the generator saves under. */
  function NamerFor(topic: Option<string>): FileNamer {
    word => SavedFileName(word, topic)
  }

  /** The record for the element at `index`, or the index the loop raised at. */
  function MapStep(acc: Result<seq<Record>, nat>, index: nat, w: Json, name: FileNamer, canvas: Option<int>,
                   picture: Option<Picture>): Result<seq<Record>, nat> {
    if acc.Err? then acc
    else if Fails(w, canvas, picture) then Err(index)
    else Ok(acc.value + [RecordFor(index, w, name)])
  }

  /** The mapping `main` builds for the words, or the index at which it raised. */
  function Mapping(words: seq<Json>, name: FileNamer, canvas: Option<int>, pictures: Pictures): Result<seq<Record>, nat>
    decreases |words|
  {
    if words == [] then Ok([])
    else
      var n := |words| - 1;
      MapStep(Mapping(words[..n], name, canvas, pictures), n, words[n], name, canvas, pictures(n))
  }

  /** The loop appending one record per word. */
  method BuildMapping(words: seq<Json>, topic: Option<string>, canvas: Option<int>, pictures: Pictures)
    returns (r: Result<seq<Record>, nat>)
    ensures r == Mapping(words, NamerFor(topic), canvas, pictures)
  {
    var mapping: seq<Record> := [];
    var idx := 0;
    while idx < |words|
      invariant 0 <= idx <= |words|
      invariant Mapping(words[..idx], NamerFor(topic), canvas, pictures) == Ok(mapping)
    {
      MappingGrows(words, NamerFor(topic), canvas, pictures, idx);
      var next := AddRecord(mapping, idx, words[idx], topic, canvas, pictures(idx));
      if next.Err? {
        MappingFaultPersists(words, NamerFor(topic), canvas, pictures, idx + 1);
        return next;
      }
      mapping := next.value;
      idx := idx + 1;
    }
    assert words[..idx] == words;
    r := Ok(mapping);
  }

  lemma MappingGrows(words: seq<Json>, name: FileNamer, canvas: Option<int>, pictures: Pictures, idx: nat)
    requires idx < |words|
    ensures Mapping(words[..idx + 1], name, canvas, pictures)
         == MapStep(Mapping(words[..idx], name, canvas, pictures), idx, words[idx], name, canvas, pictures(idx))
  {
    assert words[..idx + 1][..idx] == words[..idx];
  }

  /** One pass of the loop: sanitise the word, generate its image, append its record. */
  method AddRecord(mapping: seq<Record>, idx: nat, w: Json, topic: Option<string>, canvas: Option<int>, picture: Option<Picture>)
    returns (next: Result<seq<Record>, nat>)
    ensures next == MapStep(Ok(mapping), idx, w, NamerFor(topic), canvas, picture)
  {
    var word := WordOf(w);
    if !word.JStr? {
      return Err(idx);
    }
    var outcome := GenerateForWord(word.s, topic, canvas, picture);
    GenerateRaises(word.s, topic, canvas, picture);
    if outcome.Raised? {
      return Err(idx);
    }
    next := Ok(mapping + [RecordFor(idx, w, NamerFor(topic))]);
  }

  lemma {:induction false} MappingFaultPersists(words: seq<Json>, name: FileNamer, canvas: Option<int>, pictures: Pictures, i: nat)
    requires i <= |words| && Mapping(words[..i], name, canvas, pictures).Err?
    ensures Mapping(words, name, canvas, pictures) == Mapping(words[..i], name, canvas, pictures)
    decreases |words| - i
  {
    if i < |words| {
      assert words[..i + 1][..i] == words[..i];
      MappingFaultPersists(words, name, canvas, pictures, i + 1);
    } else {
      assert words[..i] == words;
    }
  }

  /** The record for the element at `index`. */
  function RecordFor(index: nat, w: Json, name: FileNamer): Record
    requires WordOf(w).JStr?
  {
    Record(index, WordOf(w).s, name(WordOf(w).s))
  }

  lemma MapStepOk(acc: Result<seq<Record>, nat>, index: nat, w: Json, name: FileNamer, canvas: Option<int>,
                  picture: Option<Picture>)
    ensures var r := MapStep(acc, index, w, name, canvas, picture);
      (r.Ok? <==> acc.Ok? && !Fails(w, canvas, picture)) &&
      (acc.Err? ==> r == acc) &&
      (acc.Ok? && Fails(w, canvas, picture) ==> r == Err(index)) &&
      (r.Ok? ==> r.value == acc.value + [RecordFor(index, w, name)])
  {
  }

  /** The mapping stops at the first element that fails and records every element before it. */
  lemma MappingFails(words: seq<Json>, name: FileNamer, canvas: Option<int>, pictures: Pictures)
    ensures Mapping(words, name, canvas, pictures).Ok? <==>
            forall i :: 0 <= i < |words| ==> !Fails(words[i], canvas, pictures(i))
    ensures var r := Mapping(words, name, canvas, pictures);
      r.Err? ==> (r.error < |words| && Fails(words[r.error], canvas, pictures(r.error)) &&
                  forall i :: 0 <= i < r.error ==> !Fails(words[i], canvas, pictures(i)))
  {
    MappingStops(words, name, canvas, pictures);
    MappingPasses(words, name, canvas, pictures);
  }

  lemma {:induction false} MappingStops(words: seq<Json>, name: FileNamer, canvas: Option<int>, pictures: Pictures)
    ensures var r := Mapping(words, name, canvas, pictures);
      r.Err? ==> (r.error < |words| && Fails(words[r.error], canvas, pictures(r.error)) &&
                  forall i :: 0 <= i < r.error ==> !Fails(words[i], canvas, pictures(i)))
    decreases |words|
  {
    if words != [] {
      var n := |words| - 1;
      var front := Mapping(words[..n], name, canvas, pictures);
      MappingStops(words[..n], name, canvas, pictures);
      MappingPasses(words[..n], name, canvas, pictures);
      assert forall i :: 0 <= i < n ==> words[..n][i] == words[i];
      MapStepOk(front, n, words[n], name, canvas, pictures(n));
    }
  }

  lemma {:induction false} MappingPasses(words: seq<Json>, name: FileNamer, canvas: Option<int>, pictures: Pictures)
    ensures Mapping(words, name, canvas, pictures).Ok? ==>
            forall i :: 0 <= i < |words| ==> !Fails(words[i], canvas, pictures(i))
    decreases |words|
  {
    if words != [] {
      var n := |words| - 1;
      var front := Mapping(words[..n], name, canvas, pictures);
      MapStepOk(front, n, words[n], name, canvas, pictures(n));
      if Mapping(words, name, canvas, pictures).Ok? {
        MappingPasses(words[..n], name, canvas, pictures);
        forall i | 0 <= i < n
          ensures !Fails(words[i], canvas, pictures(i))
        {
          assert words[..n][i] == words[i];
        }
      }
    }
  }

  /**
   * The mapping has one record per element, in order, whether or not an
   * image was saved: the element's position, its word, and the file name
   * the generator saves under.
   */
  lemma {:induction false} MappingShape(words: seq<Json>, name: FileNamer, canvas: Option<int>, pictures: Pictures)
    requires Mapping(words, name, canvas, pictures).Ok?
    ensures var records := Mapping(words, name, canvas, pictures).value;
      |records| == |words| &&
      forall i :: 0 <= i < |words| ==> WordOf(words[i]).JStr? && records[i] == RecordFor(i, words[i], name)
    decreases |words|
  {
    if words != [] {
      var n := |words| - 1;
      MappingShape(words[..n], name, canvas, pictures);
      assert forall i :: 0 <= i < n ==> words[..n][i] == words[i];
      MapStepOk(Mapping(words[..n], name, canvas, pictures), n, words[n], name, canvas, pictures(n));
    }
  }

  /** Once the canvas can be made, the mapping does not depend on what the image model returned. */
  lemma {:induction false} MappingIgnoresPictures(words: seq<Json>, name: FileNamer, canvas: Option<int>, p: Pictures, q: Pictures)
    requires canvas.Some?
    ensures Mapping(words, name, canvas, p) == Mapping(words, name, canvas, q)
    decreases |words|
  {
    if words != [] {
      MappingIgnoresPictures(words[..|words| - 1], name, canvas, p, q);
    }
  }

  /**
   * Each record names the file the generator saves that word's image
   * under, and for a word that got an image that file was saved; a word
   * without one is recorded all the same.
   */
  lemma MappingNamesSavedFile(words: seq<Json>, topic: Option<string>, canvas: Option<int>, pictures: Pictures, i: nat)
    requires Mapping(words, NamerFor(topic), canvas, pictures).Ok?
    requires i < |Mapping(words, NamerFor(topic), canvas, pictures).value|
    ensures var rec := Mapping(words, NamerFor(topic), canvas, pictures).value[i];
      var outcome := GenerateForWord(rec.word, topic, canvas, pictures(i));
      rec.index == i && rec.filename == SavedFileName(rec.word, topic) &&
      (pictures(i).Some? <==> outcome.Saved?) && (outcome.Saved? ==> outcome.filename == rec.filename)
  {
    MappingFails(words, NamerFor(topic), canvas, pictures);
    MappingShape(words, NamerFor(topic), canvas, pictures);
  }

  /** A text element is its own word; any other non-object element is recorded under its `str`. */
  lemma NonObjectWord(w: Json)
    requires !w.JObject?
    ensures WordOf(w) == JStr(Str(w))
    ensures w.JStr? ==> WordOf(w) == w
  {
  }

  /**
   * How reading the words file ends: its decoded value, the two failures
   * the handler catches, or any other read error (no permission, a
   * directory, text that is not UTF-8), which it does not.
   */
  datatype WordsFile = Read(value: Json) | NotFound | InvalidJson | ReadFailed

  /** What a run with `--words-json` comes to. */
  datatype WordsRun =
    | NoClient                  // the model client could not be set up: `exit()` before `main`, status 0
    | NoWords                   // a caught load failure or a value that is not a list: a message, status 0
    | ReadCrash                 // an uncaught read error: a traceback, status 1
    | Crashed(index: nat)       // an uncaught exception while making the image for word `index`
    | Written(mapping: seq<Record>)

  /**
   * The script with `--words-json`: the module-level client set-up must
   * succeed first; a missing file, invalid JSON and a value that is not a
   * list end the run quietly before any image is made.
   */
  function WordsMain(clientReady: bool, file: WordsFile, topic: Option<string>, aspect: string, pictures: Pictures): WordsRun {
    if !clientReady then NoClient
    else
      match file
      case NotFound => NoWords
      case InvalidJson => NoWords
      case ReadFailed => ReadCrash
      case Read(loaded) =>
        if !loaded.JList? then NoWords
        else
          match Mapping(loaded.items, NamerFor(topic), Canvas(aspect), pictures)
          case Err(i) => Crashed(i)
          case Ok(records) => Written(records)
  }

  /** The exit status: 1 for an uncaught exception, 0 otherwise. */
  function WordsExit(run: WordsRun): (status: int)
    ensures status == 0 || status == 1
    ensures status == 1 <==> run.Crashed? || run.ReadCrash?
  {
    if run.Crashed? || run.ReadCrash? then 1 else 0
  }

  /**
   * The run fails exactly when the client is set up and either the file
   * cannot be read for a reason the handler does not catch, or it holds a
   * list whose images cannot all be made.
   */
  lemma WordsFailures(clientReady: bool, file: WordsFile, topic: Option<string>, aspect: string, pictures: Pictures)
    ensures var run := WordsMain(clientReady, file, topic, aspect, pictures);
      WordsExit(run) == 1 <==>
        clientReady && (file.ReadFailed? ||
          (file.Read? && file.value.JList? && Mapping(file.value.items, NamerFor(topic), Canvas(aspect), pictures).Err?))
    ensures var run := WordsMain(clientReady, file, topic, aspect, pictures);
      run.Written? ==>
        clientReady && file.Read? && file.value.JList? &&
        run.mapping == Mapping(file.value.items, NamerFor(topic), Canvas(aspect), pictures).value
  {
  }

  /**
   * With the portrait default, once the client is set up, every words list
   * read from the file gets its mapping written, one record per element.
   */
  lemma PortraitNeverCrashes(items: seq<Json>, topic: Option<string>, pictures: Pictures)
    requires forall i :: 0 <= i < |items| ==> WordOf(items[i]).JStr?
    ensures Canvas(IntToString(9) + ":" + IntToString(16)) == Some(1280)
    ensures var run := WordsMain(true, Read(JList(items)), topic, IntToString(9) + ":" + IntToString(16), pictures);
      run.Written? && |run.mapping| == |items| && WordsExit(run) == 0
  {
    PortraitCanvas();
    MappingFails(items, NamerFor(topic), Some(1280), pictures);
    MappingShape(items, NamerFor(topic), Some(1280), pictures);
  }
}
