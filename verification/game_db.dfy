/**
 * What a finished round stores (src/game/game_db/mod.rs): only passages that came from a
 * language pack are recorded, under their path relative to the quote directory. The
 * database itself is not modelled; the quote directory is a parameter.
 */
module GameDb {
  import opened Wrappers
  import PC = PassageController

  /** `should_persist`: passages the user typed in and the built-in fallback passage vary,
      so nothing is recorded for them. */
  function ShouldPersist(info: PC.PassageInfo): (persist: bool)
    ensures !persist <==> info.passagePath in {"User input", "FALLBACK_PATH"}
  {
    info.passagePath != "User input" && info.passagePath != "FALLBACK_PATH"
  }

  /** `str::trim_start_matches` with a string pattern: every leading repetition of the
      pattern is removed; an empty pattern removes nothing. */
  function TrimStartMatches(s: string, pattern: string): (r: string)
    ensures |r| <= |s| && r == s[|s| - |r|..]
    ensures pattern == [] || !(pattern <= s) ==> r == s
    decreases |s|
  {
    if pattern != [] && pattern <= s then TrimStartMatches(s[|pattern|..], pattern) else s
  }

  /** Trimming goes on until the remaining text no longer starts with the pattern. */
  lemma {:induction false} TrimLeavesNoPattern(s: string, pattern: string)
    requires pattern != []
    ensures !(pattern <= TrimStartMatches(s, pattern))
    decreases |s|
  {
    if pattern <= s {
      TrimLeavesNoPattern(s[|pattern|..], pattern);
    }
  }

  /** `n` copies of `pattern` in a row. */
  function Repeat(pattern: string, n: nat): string
  {
    if n == 0 then [] else pattern + Repeat(pattern, n - 1)
  }

  /** Any number of leading copies of the pattern go, and what follows them stays. */
  lemma {:induction false} TrimRepeated(pattern: string, n: nat, rest: string)
    requires pattern != [] && !(pattern <= rest)
    ensures TrimStartMatches(Repeat(pattern, n) + rest, pattern) == rest
  {
    if n > 0 {
      var tail := Repeat(pattern, n - 1) + rest;
      AppendAssoc(pattern, Repeat(pattern, n - 1), rest);
      TrimOnce(pattern, tail);
      TrimRepeated(pattern, n - 1, rest);
    } else {
      assert Repeat(pattern, n) == [];
      EmptyAppend(rest);
    }
  }

  /** One leading copy of the pattern is removed before the rest is trimmed. */
  lemma TrimOnce(pattern: string, tail: string)
    requires pattern != []
    ensures TrimStartMatches(pattern + tail, pattern) == TrimStartMatches(tail, pattern)
  {
    DropPrefix(pattern, tail);
  }

  lemma EmptyAppend(s: string)
    ensures [] + s == s
  {
  }

  lemma AppendAssoc(a: string, b: string, c: string)
    ensures (a + b) + c == a + (b + c)
  {
  }

  /** A string starts with its prefix, and removing the prefix leaves the rest. */
  lemma DropPrefix(p: string, x: string)
    ensures p <= p + x && (p + x)[|p|..] == x
  {
  }

  /** `local_passage_path`: the path of a passage relative to the quote directory. */
  function LocalPassagePath(quoteDir: string, absolutePassage: string): (local: string)
    ensures |local| <= |absolutePassage|
    ensures !(quoteDir <= absolutePassage) ==> local == absolutePassage
  {
    TrimStartMatches(absolutePassage, quoteDir)
  }

  /** A passage under the quote directory loses exactly that prefix, e.g.
      `<quote_dir>/default/x` becomes `/default/x`. */
  lemma LocalPathUnderQuoteDir(quoteDir: string, rest: string)
    requires quoteDir != [] && !(quoteDir <= rest)
    ensures LocalPassagePath(quoteDir, quoteDir + rest) == rest
  {
    assert Repeat(quoteDir, 1) == quoteDir + [];
    TrimRepeated(quoteDir, 1, rest);
  }

  /** The key a round's statistics are stored under by `store_stats`, or nothing when the
      passage is not persisted (then nothing is written and the result is `Ok`). */
  function StoredPassageKey(quoteDir: string, info: PC.PassageInfo): (key: Option<string>)
    ensures key.None? <==> !ShouldPersist(info)
    ensures key.Some? ==> key.value == LocalPassagePath(quoteDir, info.passagePath)
  {
    if !ShouldPersist(info) then None
    else Some(LocalPassagePath(quoteDir, info.passagePath))
  }

  /** A passage typed in by the user is never recorded. */
  lemma UserInputNotStored(quoteDir: string, passage: string)
    ensures StoredPassageKey(quoteDir, PC.PassageInfo(passage, "User input", "User input")).None?
  {
  }
}
