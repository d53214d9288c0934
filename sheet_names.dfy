/**
 * File-system names for worksheets: `slugify` of the XLSX exporter.
 * The name is stripped and lower-cased, German and common Romance
 * diacritics are transliterated, every run of characters outside
 * [a-z0-9] becomes one "_", runs of "_" are collapsed, "_" is stripped
 * from both ends, and an empty result becomes "sheet".
 */
module SheetNames {
  import opened Text

  /** The transliteration table, applied to each lower-cased character. Each entry
      replaces one character by ASCII letters, so applying the replacements one
      after another, as the exporter does, is the same as this per-character map. */
  function Transliterate(c: char): string
  {
    match c
    case '\U{e4}' => "ae"
    case '\U{f6}' => "oe"
    case '\U{fc}' => "ue"
    case '\U{df}' => "ss"
    case '\U{e1}' => "a"
    case '\U{e0}' => "a"
    case '\U{e2}' => "a"
    case '\U{e9}' => "e"
    case '\U{e8}' => "e"
    case '\U{ea}' => "e"
    case '\U{ed}' => "i"
    case '\U{f3}' => "o"
    case '\U{fa}' => "u"
    case '\U{f1}' => "n"
    case _ => [c]
  }

  function TransliterateAll(s: string): string
  {
    if s == [] then [] else Transliterate(s[0]) + TransliterateAll(s[1..])
  }

  /** The characters a slug keeps: `[a-z0-9]`. */
  predicate IsSlugChar(c: char)
  {
    'a' <= c <= 'z' || '0' <= c <= '9'
  }

  predicate OverSlugAlphabet(s: string)
  {
    forall i :: 0 <= i < |s| ==> IsSlugChar(s[i]) || s[i] == '_'
  }

  predicate NoDoubleUnderscore(s: string)
  {
    forall i :: 0 <= i < |s| - 1 ==> s[i] == '_' ==> s[i + 1] != '_'
  }

  /** A well-formed slug: non-empty, over [a-z0-9_], no "_" at either end, no "__". */
  predicate IsSlug(s: string)
  {
    s != [] && OverSlugAlphabet(s) && NoDoubleUnderscore(s) && s[0] != '_' && s[|s| - 1] != '_'
  }

  /** Drop the leading run of characters outside [a-z0-9]. */
  function DropNonSlug(s: string): (r: string)
    ensures |r| <= |s| && r == s[|s| - |r|..]
    ensures r == [] || IsSlugChar(r[0])
  {
    if s != [] && !IsSlugChar(s[0]) then
      var r := DropNonSlug(s[1..]);
      assert s[1..][|s| - 1 - |r|..] == s[|s| - |r|..];
      r
    else s
  }

  /** `re.sub(r"[^a-z0-9]+", "_", s)`. */
  function ReplaceNonSlugRuns(s: string): (r: string)
    ensures OverSlugAlphabet(r) && NoDoubleUnderscore(r)
    ensures r == [] <==> s == []
    ensures s != [] && IsSlugChar(s[0]) ==> r[0] == s[0]
    decreases |s|
  {
    if s == [] then []
    else if IsSlugChar(s[0]) then [s[0]] + ReplaceNonSlugRuns(s[1..])
    else "_" + ReplaceNonSlugRuns(DropNonSlug(s[1..]))
  }

  function DropUnderscores(s: string): (r: string)
    ensures |r| <= |s| && r == s[|s| - |r|..]
    ensures r == [] || r[0] != '_'
  {
    if s != [] && s[0] == '_' then DropUnderscores(s[1..]) else s
  }

  /** `re.sub(r"_+", "_", s)`. */
  function CollapseUnderscores(s: string): string
    decreases |s|
  {
    if s == [] then []
    else if s[0] != '_' then [s[0]] + CollapseUnderscores(s[1..])
    else "_" + CollapseUnderscores(DropUnderscores(s[1..]))
  }

  function TrimEndUnderscores(s: string): (r: string)
    ensures |r| <= |s| && r == s[..|r|]
    ensures r == [] || r[|r| - 1] != '_'
  {
    if s != [] && s[|s| - 1] == '_' then TrimEndUnderscores(s[..|s| - 1]) else s
  }

  /** `s.strip("_")`. */
  function StripUnderscores(s: string): string
  {
    TrimEndUnderscores(DropUnderscores(s))
  }

  /** `slugify(name)`. */
  function Slugify(name: string): string
  {
    var s := StripUnderscores(CollapseUnderscores(ReplaceNonSlugRuns(TransliterateAll(Lower(Strip(name))))));
    if s == [] then "sheet" else s
  }

  lemma {:induction false} CollapseKeeps(s: string)
    requires NoDoubleUnderscore(s)
    ensures CollapseUnderscores(s) == s
    decreases |s|
  {
    if s != [] {
      if s[0] != '_' {
        CollapseKeeps(s[1..]);
      } else {
        if |s| > 1 {
          assert s[1] != '_';
        }
        assert DropUnderscores(s[1..]) == s[1..];
        CollapseKeeps(s[1..]);
      }
    }
  }

  lemma SliceKeepsShape(s: string, i: nat, j: nat)
    requires i <= j <= |s| && OverSlugAlphabet(s) && NoDoubleUnderscore(s)
    ensures OverSlugAlphabet(s[i..j]) && NoDoubleUnderscore(s[i..j])
  {
    var t := s[i..j];
    forall k | 0 <= k < |t| - 1 && t[k] == '_' ensures t[k + 1] != '_' {
      assert t[k] == s[i + k] && t[k + 1] == s[i + k + 1];
    }
  }

  lemma StripUnderscoresShape(s: string)
    requires OverSlugAlphabet(s) && NoDoubleUnderscore(s)
    ensures var r := StripUnderscores(s);
      OverSlugAlphabet(r) && NoDoubleUnderscore(r) && (r == [] || (r[0] != '_' && r[|r| - 1] != '_'))
  {
    var a := DropUnderscores(s);
    SliceKeepsShape(s, |s| - |a|, |s|);
    var b := TrimEndUnderscores(a);
    SliceKeepsShape(a, 0, |b|);
    if b != [] {
      assert b[0] == a[0];
    }
  }

  lemma SheetIsSlug()
    ensures IsSlug("sheet")
  {
  }

  /** Every slug is well formed. */
  lemma SlugifyIsSlug(name: string)
    ensures IsSlug(Slugify(name))
  {
    var t := ReplaceNonSlugRuns(TransliterateAll(Lower(Strip(name))));
    CollapseKeeps(t);
    StripUnderscoresShape(t);
    var s := StripUnderscores(t);
    if s == [] {
      assert Slugify(name) == "sheet";
      SheetIsSlug();
    } else {
      assert Slugify(name) == s;
    }
  }

  lemma {:induction false} LowerKeepsSlug(s: string)
    requires OverSlugAlphabet(s)
    ensures Lower(s) == s
  {
    if s != [] {
      LowerKeepsSlug(s[1..]);
    }
  }

  lemma {:induction false} TransliterateKeepsSlug(s: string)
    requires OverSlugAlphabet(s)
    ensures TransliterateAll(s) == s
  {
    if s != [] {
      TransliterateKeepsSlug(s[1..]);
    }
  }

  lemma {:induction false} ReplaceKeepsSlug(s: string)
    requires OverSlugAlphabet(s) && NoDoubleUnderscore(s)
    ensures ReplaceNonSlugRuns(s) == s
    decreases |s|
  {
    if s != [] {
      assert OverSlugAlphabet(s[1..]) && NoDoubleUnderscore(s[1..]);
      if !IsSlugChar(s[0]) {
        if |s| > 1 {
          assert s[1] != '_';
        }
        assert DropNonSlug(s[1..]) == s[1..];
      }
      ReplaceKeepsSlug(s[1..]);
    }
  }

  /** A slug is its own slug. */
  lemma SlugifyKeepsSlug(s: string)
    requires IsSlug(s)
    ensures Slugify(s) == s
  {
    assert !IsSpace(s[0]) && !IsSpace(s[|s| - 1]);
    assert TrimStart(s) == s;
    assert Strip(s) == s;
    LowerKeepsSlug(s);
    TransliterateKeepsSlug(s);
    ReplaceKeepsSlug(s);
    CollapseKeeps(s);
    assert DropUnderscores(s) == s;
    assert TrimEndUnderscores(s) == s;
  }

  /** Slugifying twice is slugifying once. */
  lemma SlugifyIdempotent(name: string)
    ensures Slugify(Slugify(name)) == Slugify(name)
  {
    SlugifyIsSlug(name);
    SlugifyKeepsSlug(Slugify(name));
  }

  /** A name with nothing to keep becomes "sheet". */
  lemma SlugifyEmpty()
    ensures Slugify("") == "sheet" && Slugify("-") == "sheet"
  {
    assert Strip("") == "";
    assert Strip("-") == "-";
    assert Lower("-") == "-";
    assert TransliterateAll("-") == "-";
    assert DropNonSlug("") == "";
    assert ReplaceNonSlugRuns("-") == "_";
    assert DropUnderscores("") == "";
    assert CollapseUnderscores("_") == "_";
    assert StripUnderscores("_") == "";
  }

  /** The sharp s is transliterated to "ss". */
  lemma SlugifySharpS()
    ensures Slugify("\U{df}") == "ss"
  {
    assert Strip("\U{df}") == "\U{df}";
    assert Lower("\U{df}") == "\U{df}";
    assert TransliterateAll("\U{df}") == "ss";
    assert ReplaceNonSlugRuns("ss") == "ss";
    assert CollapseUnderscores("ss") == "ss";
  }

  /** The capital umlaut is lower-cased, then transliterated to "ae". */
  lemma SlugifyUmlaut()
    ensures Slugify("\U{c4}") == "ae"
  {
    assert Strip("\U{c4}") == "\U{c4}";
    assert Lower("\U{c4}") == "\U{e4}";
    assert TransliterateAll("\U{e4}") == "ae";
    assert ReplaceNonSlugRuns("ae") == "ae";
    assert CollapseUnderscores("ae") == "ae";
  }
}
