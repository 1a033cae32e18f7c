/**
 * The shared title-to-slug formatter used to build Metacritic and Common Sense
 * Media URLs (src/utils/urlFormatter.js).
 */
module UrlFormatter {
  import opened JsString

  /** The class `[:_'/()\[\]&@!$%\^*+=?.,"]` that is turned into hyphens first. */
  predicate IsPunctuation(c: char) {
    || c == ':' || c == '_' || c == '\'' || c == '/' || c == '(' || c == ')' || c == '[' || c == ']'
    || c == '&' || c == '@' || c == '!' || c == '$' || c == '%' || c == '^' || c == '*' || c == '+'
    || c == '=' || c == '?' || c == '.' || c == ',' || c == '"'
  }

  /** The class `[a-z0-9\s-]` of characters that survive the second rewrite. */
  predicate IsSlugSource(c: char) { IsLowerAlnum(c) || IsSpace(c) || c == '-' }

  predicate IsHyphen(c: char) { c == '-' }

  predicate NotHyphen(c: char) { c != '-' }

  /** A lower-case letter, a digit or a hyphen. */
  predicate IsSlugChar(c: char) { IsLowerAlnum(c) || c == '-' }

  /** What a slug may contain: lower-case letters, digits and single hyphens. */
  predicate IsSlug(s: string) {
    && (forall i :: 0 <= i < |s| ==> IsSlugChar(s[i]))
    && NoDouble(s, '-')
  }

  /** The rewrite steps of the chain, in order. */
  function Punctuated(lowered: string): string { ReplaceRuns(lowered, IsPunctuation, '-') }

  function Kept(punctuated: string): string { Filter(punctuated, IsSlugSource) }

  function Dashed(trimmed: string): string { ReplaceRuns(trimmed, IsSpace, '-') }

  function Collapsed(dashed: string): string { ReplaceRuns(dashed, IsHyphen, '-') }

  /**
   * `formatTitleForUrlSlug`: lower-case, punctuation runs to '-', drop what is
   * not `[a-z0-9\s-]`, trim, white-space runs to '-', collapse hyphen runs.
   * The step that would strip a leading or trailing hyphen is not applied.
   */
  function FormatTitleForUrlSlug(title: string): (slug: string)
  {
    if title == [] then [] else Collapsed(Dashed(Trim(Kept(Punctuated(Lower(title))))))
  }

  /** A slug holds only lower-case letters, digits and hyphens, never two hyphens in a row. */
  lemma SlugCharset(title: string)
    ensures IsSlug(FormatTitleForUrlSlug(title))
  {
    if title != [] {
      var kept := Kept(Punctuated(Lower(title)));
      FilterChars(Punctuated(Lower(title)), IsSlugSource);
      TrimChars(kept);
      DashedChars(Trim(kept));
      CollapsedShape(Dashed(Trim(kept)));
    }
  }

  lemma DashedChars(trimmed: string)
    requires forall c :: c in trimmed ==> IsSlugSource(c)
    ensures forall c :: c in Dashed(trimmed) ==> IsSlugChar(c)
  {
    ReplaceRunsChars(trimmed, IsSpace, '-');
  }

  lemma CollapsedShape(dashed: string)
    requires forall c :: c in dashed ==> IsSlugChar(c)
    ensures IsSlug(Collapsed(dashed))
  {
    var slug := Collapsed(dashed);
    ReplaceRunsChars(dashed, IsHyphen, '-');
    assert forall i :: 0 <= i < |slug| ==> slug[i] in slug;
    ReplaceRunsNoDouble(dashed, IsHyphen, '-');
  }

  /** On a slug, dropping the hyphens and keeping the letters and digits agree. */
  lemma {:induction false} DropHyphensOfSlug(s: string)
    requires IsSlug(s)
    ensures Filter(s, NotHyphen) == Filter(s, IsLowerAlnum)
  {
    if s != [] {
      DropHyphensOfSlug(s[1..]);
    }
  }

  /**
   * Deleting the hyphens from a slug gives back the title's ASCII letters,
   * lower-cased, and its digits, in their original order.
   */
  lemma SlugKeepsLettersAndDigits(title: string)
    ensures Filter(FormatTitleForUrlSlug(title), NotHyphen) == Lower(Filter(title, IsAsciiAlnum))
  {
    SlugCharset(title);
    DropHyphensOfSlug(FormatTitleForUrlSlug(title));
    if title == [] {
      assert Filter(title, IsAsciiAlnum) == [];
    } else {
      SlugKeepsAlnumOfLowered(title);
      FilterLower(title);
    }
  }

  /** Each rewrite of the chain keeps the lower-case letters and digits. */
  lemma SlugKeepsAlnumOfLowered(title: string)
    requires title != []
    ensures Filter(FormatTitleForUrlSlug(title), IsLowerAlnum) == Filter(Lower(title), IsLowerAlnum)
  {
    var punctuated := Punctuated(Lower(title));
    var trimmed := Trim(Kept(punctuated));
    CollapsedKeepsAlnum(Dashed(trimmed));
    DashedKeepsAlnum(trimmed);
    TrimKeepsAlnum(Kept(punctuated));
    KeptKeepsAlnum(punctuated);
    PunctuatedKeepsAlnum(Lower(title));
  }

  lemma PunctuatedKeepsAlnum(lowered: string)
    ensures Filter(Punctuated(lowered), IsLowerAlnum) == Filter(lowered, IsLowerAlnum)
  {
    FilterReplaceRuns(lowered, IsPunctuation, '-', IsLowerAlnum);
  }

  lemma KeptKeepsAlnum(punctuated: string)
    ensures Filter(Kept(punctuated), IsLowerAlnum) == Filter(punctuated, IsLowerAlnum)
  {
    FilterFilter(punctuated, IsSlugSource, IsLowerAlnum);
  }

  lemma TrimKeepsAlnum(kept: string)
    ensures Filter(Trim(kept), IsLowerAlnum) == Filter(kept, IsLowerAlnum)
  {
    FilterTrim(kept, IsLowerAlnum);
  }

  lemma DashedKeepsAlnum(trimmed: string)
    ensures Filter(Dashed(trimmed), IsLowerAlnum) == Filter(trimmed, IsLowerAlnum)
  {
    FilterReplaceRuns(trimmed, IsSpace, '-', IsLowerAlnum);
  }

  lemma CollapsedKeepsAlnum(dashed: string)
    ensures Filter(Collapsed(dashed), IsLowerAlnum) == Filter(dashed, IsLowerAlnum)
  {
    FilterReplaceRuns(dashed, IsHyphen, '-', IsLowerAlnum);
  }

  /** A title made only of white space has an empty slug. */
  lemma SlugOfBlankTitle(title: string)
    requires AllSpace(title)
    ensures FormatTitleForUrlSlug(title) == []
  {
    if title != [] {
      BlankLower(title);
      BlankPunctuated(title);
      BlankKept(title);
      BlankTrim(title);
    }
  }

  lemma BlankLower(s: string)
    requires AllSpace(s)
    ensures Lower(s) == s
  {
    LowerUnchanged(s);
  }

  lemma BlankPunctuated(s: string)
    requires AllSpace(s)
    ensures Punctuated(s) == s
  {
    ReplaceRunsIdentity(s, IsPunctuation, '-');
  }

  lemma BlankKept(s: string)
    requires AllSpace(s)
    ensures Kept(s) == s
  {
    FilterAll(s, IsSlugSource);
  }

  lemma BlankTrim(s: string)
    requires AllSpace(s)
    ensures Trim(s) == []
  {
    TrimEmptyIff(s);
  }

  /** Formatting a slug again changes nothing. */
  lemma SlugIdempotent(title: string)
    ensures FormatTitleForUrlSlug(FormatTitleForUrlSlug(title)) == FormatTitleForUrlSlug(title)
  {
    SlugCharset(title);
    SlugIsFixpoint(FormatTitleForUrlSlug(title));
  }

  /** Every rewrite of the chain leaves a slug as it is. */
  lemma SlugIsFixpoint(s: string)
    requires IsSlug(s)
    ensures FormatTitleForUrlSlug(s) == s
  {
    if s != [] {
      FixedLower(s);
      FixedPunctuated(s);
      FixedKept(s);
      FixedTrim(s);
      FixedDashed(s);
      FixedCollapsed(s);
    }
  }

  lemma FixedLower(s: string)
    requires IsSlug(s)
    ensures Lower(s) == s
  {
    LowerUnchanged(s);
  }

  lemma FixedPunctuated(s: string)
    requires IsSlug(s)
    ensures Punctuated(s) == s
  {
    ReplaceRunsIdentity(s, IsPunctuation, '-');
  }

  lemma FixedKept(s: string)
    requires IsSlug(s)
    ensures Kept(s) == s
  {
    FilterAll(s, IsSlugSource);
  }

  lemma FixedTrim(s: string)
    requires IsSlug(s) && s != []
    ensures Trim(s) == s
  {
    assert !IsSpace(s[0]) && !IsSpace(s[|s| - 1]);
    TrimUnchanged(s);
  }

  lemma FixedDashed(s: string)
    requires IsSlug(s)
    ensures Dashed(s) == s
  {
    ReplaceRunsIdentity(s, IsSpace, '-');
  }

  lemma FixedCollapsed(s: string)
    requires IsSlug(s)
    ensures Collapsed(s) == s
  {
    ReplaceRunsFixpoint(s, IsHyphen, '-');
  }

  predicate StartsWithHyphen(s: string) { s != [] && s[0] == '-' }

  predicate EndsWithHyphen(s: string) { s != [] && s[|s| - 1] == '-' }

  /**
   * A title that starts with punctuation gives a slug that starts with a
   * hyphen: the documented stripping of edge hyphens is commented out in the
   * source, so "(500) Days of Summer" becomes "-500-days-of-summer".
   */
  lemma SlugKeepsLeadingHyphen(title: string)
    requires title != [] && IsPunctuation(title[0])
    ensures var slug := FormatTitleForUrlSlug(title); slug != [] && slug[0] == '-'
  {
    var kept := Kept(Punctuated(Lower(title)));
    LeadingHyphenKept(title);
    LeadingHyphenTrimmed(kept);
    LeadingHyphenCollapsed(Trim(kept));
  }

  lemma LeadingHyphenKept(title: string)
    requires title != [] && IsPunctuation(title[0])
    ensures StartsWithHyphen(Kept(Punctuated(Lower(title))))
  {
    assert Lower(title)[0] == title[0];
  }

  lemma LeadingHyphenTrimmed(kept: string)
    requires StartsWithHyphen(kept)
    ensures StartsWithHyphen(Trim(kept))
  {
    TrimKeepsFirst(kept);
  }

  lemma LeadingHyphenCollapsed(trimmed: string)
    requires StartsWithHyphen(trimmed)
    ensures StartsWithHyphen(Collapsed(Dashed(trimmed)))
  {
  }

  /** Likewise a title that ends with punctuation gives a slug that ends with a hyphen. */
  lemma SlugKeepsTrailingHyphen(title: string)
    requires title != [] && IsPunctuation(title[|title| - 1])
    ensures var slug := FormatTitleForUrlSlug(title); slug != [] && slug[|slug| - 1] == '-'
  {
    var punctuated := Punctuated(Lower(title));
    TrailingHyphenPunctuated(Lower(title));
    TrailingHyphenKept(punctuated);
    TrailingHyphenTrimmed(Kept(punctuated));
    TrailingHyphenDashed(Trim(Kept(punctuated)));
    TrailingHyphenCollapsed(Dashed(Trim(Kept(punctuated))));
  }

  lemma TrailingHyphenPunctuated(lowered: string)
    requires lowered != [] && IsPunctuation(lowered[|lowered| - 1])
    ensures EndsWithHyphen(Punctuated(lowered))
  {
    ReplaceRunsLast(lowered, IsPunctuation, '-');
  }

  lemma TrailingHyphenKept(punctuated: string)
    requires EndsWithHyphen(punctuated)
    ensures EndsWithHyphen(Kept(punctuated))
  {
    FilterKeepsLast(punctuated, IsSlugSource);
  }

  lemma TrailingHyphenTrimmed(kept: string)
    requires EndsWithHyphen(kept)
    ensures EndsWithHyphen(Trim(kept))
  {
    TrimKeepsLast(kept);
  }

  lemma TrailingHyphenDashed(trimmed: string)
    requires EndsWithHyphen(trimmed)
    ensures EndsWithHyphen(Dashed(trimmed))
  {
    ReplaceRunsLast(trimmed, IsSpace, '-');
  }

  lemma TrailingHyphenCollapsed(dashed: string)
    requires EndsWithHyphen(dashed)
    ensures EndsWithHyphen(Collapsed(dashed))
  {
    ReplaceRunsLast(dashed, IsHyphen, '-');
  }
}
