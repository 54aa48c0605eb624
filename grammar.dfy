/**
 * The grammar pass: every entry of the word list is shown to a language
 * model, which answers `CORRECT` or a JSON correction; corrected entries are
 * rebuilt from the correction, an issue is logged for each, and a final
 * pass drops entries whose lower-cased word repeats an earlier one.
 *
 * The model is an oracle `ask(index, entry)` whose None stands for any
 * exception raised by the call (including a reply without text); JSON
 * decoding is a `Decoder`.
 */
module Grammar {
  import opened Wrappers
  import opened Text
  import opened JsonValue
  import opened Dedup

  /** The model's reply for the entry at a 1-based index. */
  type Oracle = (nat, map<string, Json>) -> Option<string>

  /** How one reply is read. */
  datatype Verdict = Approved | Corrected(correction: map<string, Json>) | Kept

  /** A logged correction. */
  datatype Issue = Issue(index: nat, word: Json, message: Json, correction: map<string, Json>)

  /** What makes the pass raise instead of returning. */
  datatype Fault =
    | ItemNotObject(index: nat)   // `item.get` on an entry that is not an object
    | WordNotText(position: nat)  // `item['word'].lower()` without a text word

  /** The pass's results: the final entries, the issues and how many duplicates were dropped. */
  datatype Report = Report(items: seq<Json>, issues: seq<Issue>, removed: nat)

  /** The text from the first `{` to the last `}` of a reply, when the first comes before the last. */
  function BraceSpan(reply: string): (r: Option<string>)
    ensures r.Some? <==> '{' in reply && '}' in reply && Find(reply, '{') < RFind(reply, '}')
    ensures r.Some? ==> |r.value| >= 2 && r.value[0] == '{' && r.value[|r.value| - 1] == '}'
    ensures r.Some? ==> '{' !in reply[..Find(reply, '{')]
  {
    var start := Find(reply, '{');
    var stop := RFind(reply, '}') + 1;
    if start >= 0 && stop > start then Some(reply[start..stop]) else None
  }

  /**
   * A reply containing `CORRECT` anywhere approves the entry; otherwise the
   * brace span must decode to an object to count as a correction, and
   * everything else keeps the entry as it was.
   */
  function Classify(reply: Option<string>, decode: Decoder): Verdict {
    match reply
    case None => Kept
    case Some(raw) =>
      var r := Strip(raw);
      if Contains(r, "CORRECT") then Approved
      else
        match BraceSpan(r)
        case None => Kept
        case Some(span) =>
          match decode(span)
          case Some(JObject(f)) => Corrected(f)
          case _ => Kept
  }

  const EntryKeys: set<string> := {"word", "translation", "example", "example_translation"}

  /** The rebuilt entry: each of the four fields from the correction, else from the entry, else "". */
  function Merge(item: map<string, Json>, correction: map<string, Json>): map<string, Json> {
    map k | k in EntryKeys :: Get(correction, k, Get(item, k, JStr("")))
  }

  /** The entry that goes on after its verdict. */
  function Fix(item: map<string, Json>, v: Verdict): map<string, Json> {
    if v.Corrected? then Merge(item, v.correction) else item
  }

  /** The issue logged for a verdict: one for a correction, none otherwise. */
  function IssueFor(index: nat, item: map<string, Json>, v: Verdict): seq<Issue> {
    if v.Corrected? then
      [Issue(index, Get(item, "word", JStr("")), Get(v.correction, "issues", JStr("Grammar issues found")), v.correction)]
    else []
  }

  /** The verdict on an entry, given its 1-based index. */
  type Judge = (nat, map<string, Json>) -> Verdict

  /** How the source judges an entry: it asks the model and classifies the reply. */
  function JudgeBy(ask: Oracle, decode: Decoder): Judge {
    (index: nat, item: map<string, Json>) => Classify(ask(index, item), decode)
  }

  /** One more entry through the review: it is fixed by its verdict and its issue logged. */
  function Extend(acc: Result<(seq<map<string, Json>>, seq<Issue>), Fault>, entry: Json, index: nat, judge: Judge)
    : Result<(seq<map<string, Json>>, seq<Issue>), Fault>
  {
    match acc
    case Err(f) => Err(f)
    case Ok(done) =>
      match entry
      case JObject(item) =>
        var v := judge(index, item);
        Ok((done.0 + [Fix(item, v)], done.1 + IssueFor(index, item, v)))
      case _ => Err(ItemNotObject(index))
  }

  lemma ExtendOk(acc: Result<(seq<map<string, Json>>, seq<Issue>), Fault>, entry: Json, index: nat, judge: Judge)
    requires Extend(acc, entry, index, judge).Ok?
    ensures acc.Ok? && entry.JObject?
    ensures Extend(acc, entry, index, judge).value.1 == acc.value.1 + IssueFor(index, entry.fields, judge(index, entry.fields))
  {
  }

  /** The review loop: the corrected entries and the issues, or the fault it raises. */
  function Review(words: seq<Json>, judge: Judge): Result<(seq<map<string, Json>>, seq<Issue>), Fault>
    decreases |words|
  {
    if words == [] then Ok(([], []))
    else Extend(Review(words[..|words| - 1], judge), words[|words| - 1], |words|, judge)
  }

  predicate HasTextWord(item: map<string, Json>) {
    "word" in item && item["word"].JStr?
  }

  /** The key of the final duplicate check. */
  function LowerWord(item: map<string, Json>): string {
    if HasTextWord(item) then Lower(item["word"].s) else ""
  }

  /** The first position whose entry has no text word, where the duplicate check raises. */
  function FirstWithoutWord(items: seq<map<string, Json>>): (r: Option<nat>)
    ensures r.None? <==> forall k :: 0 <= k < |items| ==> HasTextWord(items[k])
    ensures r.Some? ==> r.value < |items| && !HasTextWord(items[r.value])
    ensures r.Some? ==> forall k :: 0 <= k < r.value ==> HasTextWord(items[k])
    decreases |items|
  {
    if items == [] then None
    else
      var front := items[..|items| - 1];
      var r := FirstWithoutWord(front);
      assert forall k :: 0 <= k < |front| ==> front[k] == items[k];
      if r.Some? then r
      else if !HasTextWord(items[|items| - 1]) then Some(|items| - 1)
      else None
  }

  /** The final duplicate check: the kept entries and the number removed. */
  function DedupWords(items: seq<map<string, Json>>): Result<(seq<map<string, Json>>, nat), Fault> {
    match FirstWithoutWord(items)
    case Some(p) => Err(WordNotText(p))
    case None => Ok((DedupBy(items, LowerWord), Duplicates(items, LowerWord)))
  }

  function AsJson(items: seq<map<string, Json>>): (r: seq<Json>)
    ensures |r| == |items| && forall k :: 0 <= k < |r| ==> r[k] == JObject(items[k])
  {
    seq(|items|, k requires 0 <= k < |items| => JObject(items[k]))
  }

  /** The key used: the one passed in, else the environment's. */
  function EffectiveKey(apiKey: Option<string>, envKey: Option<string>): Option<string> {
    if apiKey.None? then envKey else apiKey
  }

  /** The whole pass, as `verify_and_fix_grammar` computes it. */
  function VerifyAndFix(words: seq<Json>, apiKey: Option<string>, envKey: Option<string>,
                        ask: Oracle, decode: Decoder): Result<Report, Fault>
  {
    var key := EffectiveKey(apiKey, envKey);
    if key.None? || key.value == "" then Ok(Report(words, [], 0))
    else
      match Review(words, JudgeBy(ask, decode))
      case Err(f) => Err(f)
      case Ok(reviewed) =>
        match DedupWords(reviewed.0)
        case Err(f) => Err(f)
        case Ok(kept) => Ok(Report(AsJson(kept.0), reviewed.1, kept.1))
  }

  // ---------------------------------------------------------------- the script

  /** How the script's `main` ends. */
  datatype Run =
    | LoadFailed                // the words file could not be read or decoded: a message, exit 0
    | NotAList                  // the file holds no JSON array: a message, exit 0
    | Raised(fault: Fault)      // the pass raised: a traceback, exit 1
    | Saved(path: string, data: seq<Json>, issues: seq<Issue>, reportWritten: bool)

  /** `--output`, or the input file, overwritten, when it is absent or empty. */
  function OutputPath(output: Option<string>, wordsJson: string): (path: string)
    ensures output.None? || output == Some("") ==> path == wordsJson
    ensures output.Some? && output.value != "" ==> path == output.value
  {
    if output.Some? && output.value != "" then output.value else wordsJson
  }

  /**
   * `main`: load, run the pass with the environment's key, save to the
   * output path, and write the report when asked and non-empty.
   */
  function GrammarMain(wordsJson: string, output: Option<string>, loaded: Option<Json>, envKey: Option<string>,
                       report: Option<string>, ask: Oracle, decode: Decoder): Run
  {
    match loaded
    case None => LoadFailed
    case Some(JList(words)) =>
      (match VerifyAndFix(words, None, envKey, ask, decode)
       case Err(f) => Raised(f)
       case Ok(rep) => Saved(OutputPath(output, wordsJson), rep.items, rep.issues, report.Some? && report.value != "" && rep.issues != []))
    case Some(_) => NotAList
  }

  /** The exit status the orchestrator sees. */
  function ExitStatus(r: Run): int {
    if r.Raised? then 1 else 0
  }

  // ---------------------------------------------------------------- the loops

  /** A fault in a prefix is the fault of the whole review. */
  lemma {:induction false} ReviewFaultPersists(words: seq<Json>, judge: Judge, i: nat)
    requires i <= |words| && Review(words[..i], judge).Err?
    ensures Review(words, judge) == Review(words[..i], judge)
    decreases |words| - i
  {
    if i == |words| {
      assert words[..i] == words;
    } else {
      var front := words[..|words| - 1];
      assert front[..i] == words[..i];
      ReviewFaultPersists(front, judge, i);
    }
  }

  /** The review loop as the source runs it. */
  method ReviewEntries(words: seq<Json>, ask: Oracle, decode: Decoder)
    returns (r: Result<(seq<map<string, Json>>, seq<Issue>), Fault>)
    ensures r == Review(words, JudgeBy(ask, decode))
  {
    ghost var judge := JudgeBy(ask, decode);
    var corrected: seq<map<string, Json>> := [];
    var issues: seq<Issue> := [];
    var i := 0;
    while i < |words|
      invariant 0 <= i <= |words|
      invariant Review(words[..i], judge) == Ok((corrected, issues))
    {
      assert words[..i + 1][..i] == words[..i];
      if !words[i].JObject? {
        ReviewFaultPersists(words, judge, i + 1);
        return Err(ItemNotObject(i + 1));
      }
      var item := words[i].fields;
      var v := Classify(ask(i + 1, item), decode);
      assert v == judge(i + 1, item);
      corrected := corrected + [Fix(item, v)];
      issues := issues + IssueFor(i + 1, item, v);
      i := i + 1;
    }
    assert words[..i] == words;
    r := Ok((corrected, issues));
  }

  /** The final duplicate check as the source runs it, with its `seen` set. */
  method DropDuplicateWords(items: seq<map<string, Json>>)
    returns (r: Result<(seq<map<string, Json>>, nat), Fault>)
    ensures r == DedupWords(items)
  {
    var seen: set<string> := {};
    var kept: seq<map<string, Json>> := [];
    var removed := 0;
    var j := 0;
    while j < |items|
      invariant 0 <= j <= |items|
      invariant forall k :: 0 <= k < j ==> HasTextWord(items[k])
      invariant seen == KeySet(items[..j], LowerWord)
      invariant kept == DedupBy(items[..j], LowerWord)
      invariant removed == Duplicates(items[..j], LowerWord)
    {
      var item := items[j];
      assert items[..j + 1][..j] == items[..j];
      if !("word" in item && item["word"].JStr?) {
        return Err(WordNotText(j));
      }
      var w := Lower(item["word"].s);
      if w !in seen {
        seen := seen + {w};
        kept := kept + [item];
      } else {
        removed := removed + 1;
      }
      j := j + 1;
    }
    assert items[..j] == items;
    r := Ok((kept, removed));
  }

  /** `verify_and_fix_grammar`. */
  method VerifyAndFixGrammar(words: seq<Json>, apiKey: Option<string>, envKey: Option<string>,
                             ask: Oracle, decode: Decoder) returns (r: Result<Report, Fault>)
    ensures r == VerifyAndFix(words, apiKey, envKey, ask, decode)
  {
    var key := if apiKey.None? then envKey else apiKey;
    if key.None? || key.value == "" {
      return Ok(Report(words, [], 0));
    }
    var reviewed := ReviewEntries(words, ask, decode);
    if reviewed.Err? {
      return Err(reviewed.error);
    }
    var kept := DropDuplicateWords(reviewed.value.0);
    if kept.Err? {
      return Err(kept.error);
    }
    r := Ok(Report(AsJson(kept.value.0), reviewed.value.1, kept.value.1));
  }

  // ---------------------------------------------------------------- properties

  /** Without a usable key the entries come back untouched, with no issues and no duplicate check. */
  lemma NoKeyNoChange(words: seq<Json>, apiKey: Option<string>, envKey: Option<string>, ask: Oracle, decode: Decoder)
    requires EffectiveKey(apiKey, envKey) in {None, Some("")}
    ensures VerifyAndFix(words, apiKey, envKey, ask, decode) == Ok(Report(words, [], 0))
  {
  }

  /** A reply mentioning CORRECT anywhere approves, so a reply saying INCORRECT approves too. */
  lemma CorrectAnywhereApproves(before: string, after: string, decode: Decoder)
    requires Trimmed(before + "CORRECT" + after)
    ensures Classify(Some(before + "CORRECT" + after), decode) == Approved
  {
    var r := before + "CORRECT" + after;
    StripSetNoop(r, IsSpace);
    ContainsInside(before, "CORRECT", after);
  }

  lemma IncorrectApproves(decode: Decoder)
    ensures Classify(Some("INCORRECT"), decode) == Approved
  {
    assert "INCORRECT" == "IN" + "CORRECT" + "";
    CorrectAnywhereApproves("IN", "", decode);
  }

  /**
   * An entry is corrected exactly when the reply exists, does not mention
   * CORRECT, and its brace span decodes to an object, which is the correction.
   */
  lemma CorrectionExactly(reply: Option<string>, decode: Decoder)
    ensures Classify(reply, decode).Corrected? <==>
      reply.Some? && !Contains(Strip(reply.value), "CORRECT") &&
      BraceSpan(Strip(reply.value)).Some? &&
      decode(BraceSpan(Strip(reply.value)).value).Some? &&
      decode(BraceSpan(Strip(reply.value)).value).value.JObject?
    ensures Classify(reply, decode).Corrected? ==>
      Classify(reply, decode).correction == decode(BraceSpan(Strip(reply.value)).value).value.fields
  {
  }

  /** A failed call or an unreadable correction keeps the entry as it was. */
  lemma UnreadableKeepsEntry(item: map<string, Json>, reply: Option<string>, decode: Decoder)
    requires !Classify(reply, decode).Corrected?
    ensures Fix(item, Classify(reply, decode)) == item
    ensures IssueFor(0, item, Classify(reply, decode)) == []
  {
  }

  /**
   * A corrected entry has exactly the four entry fields; each comes from the
   * correction when it has it, else from the original entry, else is "".
   */
  lemma MergeFields(item: map<string, Json>, correction: map<string, Json>)
    ensures Merge(item, correction).Keys == EntryKeys
    ensures forall k :: k in EntryKeys && k in correction ==> Merge(item, correction)[k] == correction[k]
    ensures forall k :: k in EntryKeys && k !in correction && k in item ==> Merge(item, correction)[k] == item[k]
    ensures forall k :: k in EntryKeys && k !in correction && k !in item ==> Merge(item, correction)[k] == JStr("")
  {
  }

  /**
   * The review yields one entry per input entry, in order, each the input
   * fixed by its own verdict; it raises exactly when some entry is not an
   * object, at the first such entry.
   */
  lemma {:induction false} ReviewOnePerEntry(words: seq<Json>, judge: Judge)
    ensures Review(words, judge).Ok? <==> forall i :: 0 <= i < |words| ==> words[i].JObject?
    ensures Review(words, judge).Ok? ==>
      var c := Review(words, judge).value.0;
      |c| == |words| &&
      forall i :: 0 <= i < |words| ==> c[i] == Fix(words[i].fields, judge(i + 1, words[i].fields))
    ensures Review(words, judge).Err? ==>
      Review(words, judge).error.ItemNotObject? &&
      var p := Review(words, judge).error.index;
      1 <= p <= |words| && !words[p - 1].JObject? &&
      forall k :: 0 <= k < p - 1 ==> words[k].JObject?
    decreases |words|
  {
    if words != [] {
      var front := words[..|words| - 1];
      ReviewOnePerEntry(front, judge);
      assert forall k :: 0 <= k < |front| ==> front[k] == words[k];
    }
  }

  /** The issues the review logs, when it completes. */
  function IssuesLogged(words: seq<Json>, judge: Judge): seq<Issue>
    requires Review(words, judge).Ok?
  {
    Review(words, judge).value.1
  }

  /** The last entry adds its own issue, if any, after those of the entries before it. */
  lemma IssuesStep(words: seq<Json>, judge: Judge)
    requires words != [] && Review(words, judge).Ok?
    ensures Review(words[..|words| - 1], judge).Ok?
    ensures words[|words| - 1].JObject?
    ensures IssuesLogged(words, judge) ==
      IssuesLogged(words[..|words| - 1], judge) +
      IssueFor(|words|, words[|words| - 1].fields, judge(|words|, words[|words| - 1].fields))
  {
    ExtendOk(Review(words[..|words| - 1], judge), words[|words| - 1], |words|, judge);
  }

  /** An issue that records the correction of the entry at its own 1-based index. */
  predicate IssueOf(words: seq<Json>, judge: Judge, issue: Issue) {
    1 <= issue.index <= |words| && words[issue.index - 1].JObject? &&
    var item := words[issue.index - 1].fields;
    var v := judge(issue.index, item);
    v.Corrected? && issue.correction == v.correction &&
    issue.word == Get(item, "word", JStr("")) &&
    issue.message == Get(v.correction, "issues", JStr("Grammar issues found"))
  }

  /** Each issue records the correction of the entry at its own index. */
  lemma {:induction false} IssuesSound(words: seq<Json>, judge: Judge)
    requires Review(words, judge).Ok?
    ensures forall k :: 0 <= k < |IssuesLogged(words, judge)| ==> IssueOf(words, judge, IssuesLogged(words, judge)[k])
    decreases |words|
  {
    if words != [] {
      var front := words[..|words| - 1];
      IssuesStep(words, judge);
      IssuesSound(front, judge);
      var before := IssuesLogged(front, judge);
      var issues := IssuesLogged(words, judge);
      forall k | 0 <= k < |issues| ensures IssueOf(words, judge, issues[k]) {
        if k < |before| {
          assert issues[k] == before[k];
          assert front[before[k].index - 1] == words[before[k].index - 1];
        }
      }
    }
  }

  /** The issues come in entry order, and none is for an entry past the end. */
  lemma {:induction false} IssuesOrdered(words: seq<Json>, judge: Judge)
    requires Review(words, judge).Ok?
    ensures forall k :: 0 <= k < |IssuesLogged(words, judge)| ==> 1 <= IssuesLogged(words, judge)[k].index <= |words|
    ensures forall k, l :: 0 <= k < l < |IssuesLogged(words, judge)| ==>
      IssuesLogged(words, judge)[k].index < IssuesLogged(words, judge)[l].index
    decreases |words|
  {
    if words != [] {
      IssuesStep(words, judge);
      IssuesOrdered(words[..|words| - 1], judge);
    }
  }

  /** Every corrected entry has its issue. */
  lemma {:induction false} IssuesComplete(words: seq<Json>, judge: Judge, i: nat)
    requires Review(words, judge).Ok?
    requires i < |words| && words[i].JObject? && judge(i + 1, words[i].fields).Corrected?
    ensures exists k :: 0 <= k < |IssuesLogged(words, judge)| && IssuesLogged(words, judge)[k].index == i + 1
    decreases |words|
  {
    var front := words[..|words| - 1];
    IssuesStep(words, judge);
    var before := IssuesLogged(front, judge);
    var issues := IssuesLogged(words, judge);
    if i < |words| - 1 {
      assert front[i] == words[i];
      IssuesComplete(front, judge, i);
      var k :| 0 <= k < |before| && before[k].index == i + 1;
      assert issues[k] == before[k];
    } else {
      assert issues[|before|].index == i + 1;
    }
  }

  /**
   * The duplicate check keeps an order-preserving selection with distinct
   * lower-cased words, counts what it drops, and has nothing left to drop
   * when run again.
   */
  lemma DedupWordsFacts(items: seq<map<string, Json>>)
    requires DedupWords(items).Ok?
    ensures var kept := DedupWords(items).value.0;
      DistinctKeys(kept, LowerWord) && Subsequence(kept, items) &&
      |kept| + DedupWords(items).value.1 == |items| &&
      DedupWords(kept) == Ok((kept, 0))
  {
    DedupDistinct(items, LowerWord);
    DedupSubsequence(items, LowerWord);
    DedupLength(items, LowerWord);
    DedupWordsAgain(items);
  }

  /** A second duplicate check finds nothing to drop. */
  lemma DedupWordsAgain(items: seq<map<string, Json>>)
    requires DedupWords(items).Ok?
    ensures DedupWords(DedupWords(items).value.0) == Ok((DedupWords(items).value.0, 0))
  {
    var kept := DedupBy(items, LowerWord);
    DedupDistinct(items, LowerWord);
    DedupMembers(items, LowerWord);
    DedupOfDistinct(kept, LowerWord);
    DedupLength(kept, LowerWord);
    forall k | 0 <= k < |kept| ensures HasTextWord(kept[k]) {
      assert kept[k] in items;
    }
    assert FirstWithoutWord(kept).None?;
  }

  /** The first entry with each lower-cased word survives the duplicate check. */
  lemma FirstSpellingKept(items: seq<map<string, Json>>, i: nat)
    requires DedupWords(items).Ok? && i < |items| && LowerWord(items[i]) !in KeySet(items[..i], LowerWord)
    ensures items[i] in DedupWords(items).value.0
  {
    DedupKeepsFirst(items, LowerWord, i);
  }

  /**
   * With a key, a completed pass returns no more entries than it was given,
   * and the ones it dropped are exactly the counted duplicates.
   */
  lemma PassAccounting(words: seq<Json>, apiKey: Option<string>, envKey: Option<string>, ask: Oracle, decode: Decoder)
    requires EffectiveKey(apiKey, envKey) !in {None, Some("")}
    requires VerifyAndFix(words, apiKey, envKey, ask, decode).Ok?
    ensures var rep := VerifyAndFix(words, apiKey, envKey, ask, decode).value;
      |rep.items| + rep.removed == |words| &&
      forall k :: 0 <= k < |rep.items| ==> rep.items[k].JObject? && HasTextWord(rep.items[k].fields)
  {
    var reviewed := Review(words, JudgeBy(ask, decode)).value;
    ReviewOnePerEntry(words, JudgeBy(ask, decode));
    DedupWordsFacts(reviewed.0);
  }

  /** The script fails only when the pass raises; a missing or malformed file still exits 0. */
  lemma FailsOnlyWhenRaising(wordsJson: string, output: Option<string>, loaded: Option<Json>, envKey: Option<string>,
                             report: Option<string>, ask: Oracle, decode: Decoder)
    ensures var run := GrammarMain(wordsJson, output, loaded, envKey, report, ask, decode);
      (ExitStatus(run) != 0 <==> run.Raised?) &&
      (run.Raised? ==> loaded.Some? && loaded.value.JList? && EffectiveKey(None, envKey) !in {None, Some("")})
  {
  }

  /**
   * The corrected entries go to the output path (the input file unless
   * `--output` names another), and the report file is written exactly when
   * one was asked for and some entry was corrected.
   */
  lemma ReportOnlyWithIssues(wordsJson: string, output: Option<string>, words: seq<Json>, envKey: Option<string>,
                             report: Option<string>, ask: Oracle, decode: Decoder)
    requires GrammarMain(wordsJson, output, Some(JList(words)), envKey, report, ask, decode).Saved?
    ensures var run := GrammarMain(wordsJson, output, Some(JList(words)), envKey, report, ask, decode);
      run.reportWritten <==> report.Some? && report.value != "" && run.issues != []
    ensures var run := GrammarMain(wordsJson, output, Some(JList(words)), envKey, report, ask, decode);
      run.data == VerifyAndFix(words, None, envKey, ask, decode).value.items
    ensures var run := GrammarMain(wordsJson, output, Some(JList(words)), envKey, report, ask, decode);
      run.path == wordsJson || (output == Some(run.path) && run.path != "")
  {
  }
}
