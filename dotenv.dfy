/**
 * The fallback `.env` reader of the word-list script: `KEY=VALUE` lines
 * fill the process environment without overriding what is already set.
 */
module DotEnv {
  import opened Wrappers
  import opened Text

  /**
   * One line: stripped; blank lines, `#` comments and lines without `=`
   * are skipped; the key is the stripped text before the first `=`, the
   * value the text after it stripped of whitespace, then of `"`, then of
   * `'`; an empty key is skipped.
   */
  function ParseEnvLine(line: string): (r: Option<(string, string)>)
    ensures r.Some? ==> r.value.0 != [] && Trimmed(r.value.0) && '=' !in r.value.0
  {
    var l := Strip(line);
    if l == [] || l[0] == '#' || '=' !in l then None
    else
      var halves := SplitOnce(l, '=').value;
      var key := Strip(halves.0);
      StripSetKeepsOut(halves.0, IsSpace, '=');
      var value := StripSet(StripSet(Strip(halves.1), IsDoubleQuote), IsSingleQuote);
      if key != [] then Some((key, value)) else None
  }

  /** Blank lines, `#` comments and lines without `=` set nothing. */
  lemma SkippedLines(line: string)
    requires Strip(line) == [] || Strip(line)[0] == '#' || '=' !in line
    ensures ParseEnvLine(line).None?
  {
    if '=' !in line {
      StripSetKeepsOut(line, IsSpace, '=');
    }
  }

  /** A key as it can be written back: non-empty, stripped, no `=`, and not a comment. */
  predicate WritableKey(k: string) {
    k != [] && Trimmed(k) && '=' !in k && k[0] != '#'
  }

  /** A value as it can be written back: stripped, with no quote at either end. */
  predicate WritableValue(v: string) {
    Trimmed(v) && (v == [] || (!IsQuote(v[0]) && !IsQuote(v[|v| - 1])))
  }

  predicate IsQuote(c: char) { c == '"' || c == '\'' }

  /** `KEY=VALUE` reads back as that key and value. */
  lemma ParseWrittenLine(k: string, v: string)
    requires WritableKey(k) && WritableValue(v)
    ensures ParseEnvLine(k + "=" + v) == Some((k, v))
  {
    ParseAssignment(k, v, v);
  }

  /** `KEY="VALUE"` and `KEY='VALUE'` read back without the quotes. */
  lemma ParseQuotedLine(k: string, v: string, q: char)
    requires WritableKey(k) && WritableValue(v) && IsQuote(q)
    ensures ParseEnvLine(k + "=" + [q] + v + [q]) == Some((k, v))
  {
    var written := [q] + v + [q];
    assert written[0] == q && written[|written| - 1] == q;
    if q == '"' {
      StripSetBetween(v, q, IsDoubleQuote);
      StripSetNoop(v, IsSingleQuote);
    } else {
      StripSetNoop(written, IsDoubleQuote);
      StripSetBetween(v, q, IsSingleQuote);
    }
    assert k + "=" + [q] + v + [q] == k + "=" + written;
    ParseAssignment(k, written, v);
  }

  /** A line made of a writable key, `=` and a stripped value whose quotes unwrap to `v`. */
  lemma ParseAssignment(k: string, written: string, v: string)
    requires WritableKey(k) && Trimmed(written)
    requires StripSet(StripSet(written, IsDoubleQuote), IsSingleQuote) == v
    ensures ParseEnvLine(k + "=" + written) == Some((k, v))
  {
    var l := k + "=" + written;
    assert l[0] == k[0];
    assert l[|l| - 1] == if written == [] then '=' else written[|written| - 1];
    StripSetNoop(l, IsSpace);
    assert l[..|k|] == k && l[|k|] == '=' && l[|k| + 1..] == written;
    FindFirst(l, '=', |k|);
    StripSetNoop(k, IsSpace);
    StripSetNoop(written, IsSpace);
  }

  /** The environment after reading `lines` into `env`: a key already present is never replaced. */
  function EnvAfter(env: map<string, string>, lines: seq<string>): map<string, string>
    decreases |lines|
  {
    if lines == [] then env
    else EnvStep(EnvAfter(env, lines[..|lines| - 1]), lines[|lines| - 1])
  }

  /** One line read into `e`. */
  function EnvStep(e: map<string, string>, line: string): map<string, string> {
    match ParseEnvLine(line)
    case Some(kv) => if kv.0 in e then e else e[kv.0 := kv.1]
    case None => e
  }

  lemma EnvGrows(env: map<string, string>, lines: seq<string>, i: nat)
    requires i < |lines|
    ensures EnvAfter(env, lines[..i + 1]) == EnvStep(EnvAfter(env, lines[..i]), lines[i])
  {
    assert lines[..i + 1][..i] == lines[..i];
  }

  /** The process environment the loader writes into. */
  class Environ {
    var vars: map<string, string>

    constructor (initial: map<string, string>)
      ensures vars == initial
    {
      vars := initial;
    }

    /** Reads the `.env` file's lines when it exists. */
    method LoadDotEnv(exists_: bool, lines: seq<string>)
      modifies this
      ensures vars == if exists_ then EnvAfter(old(vars), lines) else old(vars)
    {
      if !exists_ {
        return;
      }
      var i := 0;
      while i < |lines|
        invariant 0 <= i <= |lines|
        invariant vars == EnvAfter(old(vars), lines[..i])
      {
        EnvGrows(old(vars), lines, i);
        var parsed := ParseEnvLine(lines[i]);
        if parsed.Some? && parsed.value.0 !in vars {
          vars := vars[parsed.value.0 := parsed.value.1];
        }
        i := i + 1;
      }
      assert lines[..i] == lines;
    }
  }

  /** Variables set before loading keep their values. */
  lemma {:induction false} NeverOverrides(env: map<string, string>, lines: seq<string>, k: string)
    requires k in env
    ensures k in EnvAfter(env, lines) && EnvAfter(env, lines)[k] == env[k]
    decreases |lines|
  {
    if lines != [] {
      NeverOverrides(env, lines[..|lines| - 1], k);
    }
  }

  /** Every defined key ends up set. */
  lemma {:induction false} DefinedKeysSet(env: map<string, string>, lines: seq<string>, i: nat)
    requires i < |lines| && ParseEnvLine(lines[i]).Some?
    ensures ParseEnvLine(lines[i]).value.0 in EnvAfter(env, lines)
    decreases |lines|
  {
    var front := lines[..|lines| - 1];
    if i < |lines| - 1 {
      assert front[i] == lines[i];
      DefinedKeysSet(env, front, i);
    }
  }

  /**
   * A key the loader added comes from a line, and from the first line that
   * defines it: later definitions do not win.
   */
  lemma {:induction false} FirstDefinitionWins(env: map<string, string>, lines: seq<string>, k: string) returns (i: nat)
    requires k in EnvAfter(env, lines) && k !in env
    ensures i < |lines| && ParseEnvLine(lines[i]) == Some((k, EnvAfter(env, lines)[k]))
    ensures forall j :: 0 <= j < i ==> ParseEnvLine(lines[j]).None? || ParseEnvLine(lines[j]).value.0 != k
    decreases |lines|
  {
    var front := lines[..|lines| - 1];
    var e := EnvAfter(env, front);
    if k in e {
      i := FirstDefinitionWins(env, front, k);
      assert EnvAfter(env, lines)[k] == e[k];
      forall j | 0 <= j < i ensures lines[j] == front[j] { }
    } else {
      i := |lines| - 1;
      forall j | 0 <= j < i ensures ParseEnvLine(lines[j]).None? || ParseEnvLine(lines[j]).value.0 != k {
        if ParseEnvLine(lines[j]).Some? && ParseEnvLine(lines[j]).value.0 == k {
          assert front[j] == lines[j];
          DefinedKeysSet(env, front, j);
        }
      }
    }
  }
}
