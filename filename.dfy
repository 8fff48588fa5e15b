/**
 * `sanitizeFilename`, the map from an English word to the base name of its
 * audio file. The same five-step chain is written out identically in
 * `src/hooks/useAudioPlayback.ts`, `scripts/generate-audio.ts` and
 * `scripts/generate-audio-spanishdict.ts`; this one definition models all
 * three, which is what makes the names the player asks for the names the
 * scripts write.
 */
module Filename {
  import opened Seqs

  function LowerChar(c: char): char
  {
    if 'A' <= c <= 'Z' then (c as int + 32) as char else c
  }

  /** `toLowerCase()`, on ASCII letters. */
  function Lower(s: string): (r: string)
    ensures |r| == |s|
    ensures forall i :: 0 <= i < |s| ==> r[i] == LowerChar(s[i])
  {
    if s == [] then [] else [LowerChar(s[0])] + Lower(s[1..])
  }

  function SlashChar(c: char): char
  {
    if c == '/' || c == '\\' then '-' else c
  }

  /** `replace(/[/\\]/g, "-")`. */
  function Slashes(s: string): (r: string)
    ensures |r| == |s|
    ensures forall i :: 0 <= i < |s| ==> r[i] == SlashChar(s[i])
  {
    if s == [] then [] else [SlashChar(s[0])] + Slashes(s[1..])
  }

  /** The characters a file name may keep: `[a-z0-9-]`. */
  predicate Allowed(c: char)
  {
    'a' <= c <= 'z' || '0' <= c <= '9' || c == '-'
  }

  predicate IsAlnum(c: char)
  {
    'a' <= c <= 'z' || '0' <= c <= '9'
  }

  /** `replace(/[^a-z0-9\-]/g, "")`. */
  function Strip(s: string): string
  {
    Filter(s, Allowed)
  }

  predicate NoDoubleHyphen(s: string)
  {
    forall i :: 0 <= i < |s| - 1 ==> !(s[i] == '-' && s[i + 1] == '-')
  }

  /** `replace(/-+/g, "-")`: every run of hyphens becomes one hyphen. */
  function Collapse(s: string): (r: string)
    ensures |s| > 0 ==> |r| > 0 && r[0] == s[0]
    ensures forall c :: c in r ==> c in s
    ensures NoDoubleHyphen(r)
    decreases |s|
  {
    if |s| < 2 then s
    else if s[0] == '-' && s[1] == '-' then Collapse(s[1..])
    else
      var rest := Collapse(s[1..]);
      assert forall c :: c in [s[0]] + rest ==> c == s[0] || c in rest;
      [s[0]] + rest
  }

  /** `replace(/^-|-$/g, "")`: one hyphen off the front, then one off the end. */
  function TrimHyphens(s: string): string
  {
    var t := if |s| > 0 && s[0] == '-' then s[1..] else s;
    if |t| > 0 && t[|t| - 1] == '-' then t[..|t| - 1] else t
  }

  /** `sanitizeFilename`. */
  function Sanitize(s: string): string
  {
    TrimHyphens(Collapse(Cleaned(s)))
  }

  /** The shape of every sanitized name: `[a-z0-9-]` only, no "--", no hyphen at either end. */
  predicate Canonical(s: string)
  {
    && AllAllowed(s)
    && NoDoubleHyphen(s)
    && (|s| > 0 ==> s[0] != '-' && s[|s| - 1] != '-')
  }

  predicate AllAllowed(s: string)
  {
    forall i :: 0 <= i < |s| ==> Allowed(s[i])
  }

  function DropFront(s: string): string
  {
    if |s| > 0 && s[0] == '-' then s[1..] else s
  }

  function DropBack(t: string): string
  {
    if |t| > 0 && t[|t| - 1] == '-' then t[..|t| - 1] else t
  }

  lemma TrimIsDrops(s: string)
    ensures TrimHyphens(s) == DropBack(DropFront(s))
  {
  }

  lemma TrimFront(s: string)
    requires AllAllowed(s) && NoDoubleHyphen(s)
    ensures var t := DropFront(s);
      AllAllowed(t) && NoDoubleHyphen(t) && (|t| > 0 ==> t[0] != '-') &&
      Filter(t, IsAlnum) == Filter(s, IsAlnum)
  {
    if |s| > 0 && s[0] == '-' {
      var t := s[1..];
      assert s == [s[0]] + t;
      FilterCons(s[0], t, IsAlnum);
      assert forall i :: 0 <= i < |t| ==> t[i] == s[i + 1];
    }
  }

  lemma TrimBack(t: string)
    requires AllAllowed(t) && NoDoubleHyphen(t) && (|t| > 0 ==> t[0] != '-')
    ensures Canonical(DropBack(t))
    ensures Filter(DropBack(t), IsAlnum) == Filter(t, IsAlnum)
  {
    if |t| > 0 && t[|t| - 1] == '-' {
      var r := t[..|t| - 1];
      PrefixShape(t, |t| - 1);
      assert |r| > 0 ==> r[0] != '-' && r[|r| - 1] != '-';
      assert Canonical(r);
      DropLastHyphen(t);
    }
  }

  lemma DropLastHyphen(t: string)
    requires |t| > 0 && t[|t| - 1] == '-'
    ensures Filter(t[..|t| - 1], IsAlnum) == Filter(t, IsAlnum)
  {
    FilterDropLast(t, IsAlnum);
  }

  /** A prefix keeps the character class and hyphen pattern of the whole. */
  lemma PrefixShape(t: string, k: nat)
    requires k <= |t| && AllAllowed(t) && NoDoubleHyphen(t)
    ensures AllAllowed(t[..k]) && NoDoubleHyphen(t[..k])
    ensures k > 0 ==> t[..k][0] == t[0]
    ensures k < |t| && t[k] == '-' && k > 0 ==> t[..k][k - 1] != '-'
  {
  }

  lemma TrimSpec(s: string)
    requires AllAllowed(s) && NoDoubleHyphen(s)
    ensures Canonical(TrimHyphens(s))
    ensures Filter(TrimHyphens(s), IsAlnum) == Filter(s, IsAlnum)
  {
    TrimIsDrops(s);
    TrimFront(s);
    TrimBack(DropFront(s));
  }

  /** `sanitizeFilename` always returns a canonical name. */
  lemma SanitizeCanonical(s: string)
    ensures Canonical(Sanitize(s))
  {
    var c := Collapse(Cleaned(s));
    FilterMembers(Slashes(Lower(s)), Allowed);
    forall i | 0 <= i < |c| ensures Allowed(c[i]) {
      assert c[i] in c;
    }
    TrimSpec(c);
  }

  /** A canonical name passes through every step unchanged. */
  lemma {:induction false} CanonicalFixed(s: string)
    requires Canonical(s)
    ensures Sanitize(s) == s
  {
    CleanedFixed(s);
    CollapseFixed(s);
    TrimFixed(s);
  }

  lemma CleanedFixed(s: string)
    requires AllAllowed(s)
    ensures Cleaned(s) == s
  {
    LowerSlashesFixed(s);
    FilterAll(s, Allowed);
  }

  lemma LowerSlashesFixed(s: string)
    requires AllAllowed(s)
    ensures Lower(s) == s && Slashes(Lower(s)) == s
  {
    assert Lower(s) == s;
  }

  lemma TrimFixed(s: string)
    requires |s| > 0 ==> s[0] != '-' && s[|s| - 1] != '-'
    ensures TrimHyphens(s) == s
  {
  }

  lemma {:induction false} CollapseFixed(s: string)
    requires NoDoubleHyphen(s)
    ensures Collapse(s) == s
    decreases |s|
  {
    if |s| >= 2 {
      assert s[0] == '-' ==> s[1] != '-';
      assert NoDoubleHyphen(s[1..]);
      CollapseFixed(s[1..]);
      assert s == [s[0]] + s[1..];
    }
  }

  /** Sanitizing twice is sanitizing once. */
  lemma SanitizeIdempotent(s: string)
    ensures Sanitize(Sanitize(s)) == Sanitize(s)
  {
    SanitizeCanonical(s);
    CanonicalFixed(Sanitize(s));
  }

  lemma {:induction false} SlashesKeepAlnum(s: string)
    ensures Filter(Slashes(s), IsAlnum) == Filter(s, IsAlnum)
    decreases |s|
  {
    if s != [] {
      SlashesKeepAlnum(s[1..]);
      assert Slashes(s) == [SlashChar(s[0])] + Slashes(s[1..]);
      FilterCons(SlashChar(s[0]), Slashes(s[1..]), IsAlnum);
      assert s == [s[0]] + s[1..];
      FilterCons(s[0], s[1..], IsAlnum);
    }
  }

  lemma {:induction false} CollapseKeepsAlnum(s: string)
    ensures Filter(Collapse(s), IsAlnum) == Filter(s, IsAlnum)
    decreases |s|
  {
    if |s| >= 2 {
      CollapseKeepsAlnum(s[1..]);
      assert s == [s[0]] + s[1..];
      FilterCons(s[0], s[1..], IsAlnum);
      if !(s[0] == '-' && s[1] == '-') {
        FilterCons(s[0], Collapse(s[1..]), IsAlnum);
      }
    }
  }

  /**
   * The letters and digits of the word survive, lowercased and in their
   * original order: only hyphens, slashes and other characters are dropped.
   */
  lemma SanitizeKeepsAlnum(s: string)
    ensures Filter(Sanitize(s), IsAlnum) == Filter(Lower(s), IsAlnum)
  {
    var l := Lower(s);
    SlashesKeepAlnum(l);
    var st := Strip(Slashes(l));
    FilterFilter(Slashes(l), Allowed, IsAlnum, IsAlnum);
    CollapseKeepsAlnum(st);
    var c := Collapse(st);
    FilterMembers(Slashes(l), Allowed);
    forall i | 0 <= i < |c| ensures Allowed(c[i]) {
      assert c[i] in c;
    }
    TrimSpec(c);
  }

  lemma {:induction false} LowerAppend(a: string, b: string)
    ensures Lower(a + b) == Lower(a) + Lower(b)
  {
  }

  lemma {:induction false} SlashesAppend(a: string, b: string)
    ensures Slashes(a + b) == Slashes(a) + Slashes(b)
  {
  }

  /** The first three steps, which work character by character. */
  function Cleaned(s: string): string
  {
    Strip(Slashes(Lower(s)))
  }

  lemma CleanedAppend(a: string, b: string)
    ensures Cleaned(a + b) == Cleaned(a) + Cleaned(b)
  {
    LowerAppend(a, b);
    SlashesAppend(Lower(a), Lower(b));
    FilterAppend(Slashes(Lower(a)), Slashes(Lower(b)), Allowed);
  }

  /**
   * A character that is not `[a-z0-9-]` after lowercasing and is not a slash
   * (a space, a comma, an accented letter) vanishes without leaving a hyphen,
   * while a slash turns into one.
   */
  lemma CharacterFate(a: string, c: char, b: string)
    ensures !Allowed(LowerChar(c)) && c != '/' && c != '\\' ==> Cleaned(a + [c] + b) == Cleaned(a) + Cleaned(b)
    ensures c == '/' || c == '\\' ==> Cleaned(a + [c] + b) == Cleaned(a) + "-" + Cleaned(b)
  {
    CleanedAppend(a + [c], b);
    CleanedAppend(a, [c]);
    assert Lower([c]) == [LowerChar(c)];
    assert Slashes([LowerChar(c)]) == [SlashChar(LowerChar(c))];
    FilterCons(SlashChar(LowerChar(c)), [], Allowed);
  }

  /** A slash becomes a hyphen. */
  lemma SlashBecomesHyphen()
    ensures Sanitize("a/b") == "a-b"
  {
    assert "a/b" == "a" + ['/'] + "b";
    CharacterFate("a", '/', "b");
    CleanedLetter('a');
    CleanedLetter('b');
    assert "a" + "-" + "b" == "a-b";
    CollapseFixed("a-b");
  }

  lemma CleanedLetter(c: char)
    requires 'a' <= c <= 'z'
    ensures Cleaned([c]) == [c]
  {
    assert Lower([c]) == [c];
    assert Slashes([c]) == [c];
    FilterCons(c, [], Allowed);
  }

  /** `${sanitizeFilename(word)}.mp3`: the audio file of a word. */
  function FileName(word: string): (f: string)
    ensures '/' !in f && '\\' !in f
    ensures f == Sanitize(word) + ".mp3"
  {
    var s := Sanitize(word);
    SanitizeCanonical(word);
    assert forall i :: 0 <= i < |s| ==> s[i] != '/' && s[i] != '\\';
    s + ".mp3"
  }
}
