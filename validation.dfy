/** The rules the form schemas share: the explicit e-mail regular expression
    `^[a-zA-Z0-9._%+-]+@[a-zA-Z0-9.-]+\.[a-zA-Z]{2,}$` and the image
    file-extension test `name.split(".").pop().toLowerCase()` checked against
    an allow-list. */
module Validation {
  import opened Common

  // ---------------------------------------------------------------------
  // E-mail regular expression
  // ---------------------------------------------------------------------

  /** `[a-zA-Z0-9._%+-]` */
  predicate IsLocalChar(c: char) {
    IsAsciiLetter(c) || IsAsciiDigit(c) || c == '.' || c == '_' || c == '%' || c == '+' || c == '-'
  }

  /** `[a-zA-Z0-9.-]` */
  predicate IsDomainChar(c: char) {
    IsAsciiLetter(c) || IsAsciiDigit(c) || c == '.' || c == '-'
  }

  /** `[a-zA-Z0-9._%+-]+` */
  predicate IsLocalPart(s: string) {
    |s| > 0 && forall i :: 0 <= i < |s| ==> IsLocalChar(s[i])
  }

  /** `[a-zA-Z0-9.-]+` */
  predicate IsDomainPart(s: string) {
    |s| > 0 && forall i :: 0 <= i < |s| ==> IsDomainChar(s[i])
  }

  /** `[a-zA-Z]{2,}` */
  predicate IsTopLevelPart(s: string) {
    |s| >= 2 && forall i :: 0 <= i < |s| ==> IsAsciiLetter(s[i])
  }

  /** The anchored pattern matches `s` with the `@` at index `at` and the
      escaped `\.` at index `dot`. */
  predicate IsEmailSplit(s: string, at: nat, dot: nat) {
    && at < dot < |s|
    && s[at] == '@' && s[dot] == '.'
    && IsLocalPart(s[..at])
    && IsDomainPart(s[at + 1..dot])
    && IsTopLevelPart(s[dot + 1..])
  }

  /** The regular expression accepts `s`: some choice of the two separator
      positions makes every part match (this is what backtracking searches). */
  predicate MatchesEmailRegex(s: string) {
    exists at: nat, dot: nat | at < dot < |s| :: IsEmailSplit(s, at, dot)
  }

  /** A successful match leaves no choice: the `@` is the only one in the
      string, and the separating dot is the last dot. */
  lemma EmailSplitIsUnique(s: string, at: nat, dot: nat)
    requires IsEmailSplit(s, at, dot)
    ensures forall i :: 0 <= i < |s| && s[i] == '@' ==> i == at
    ensures forall i :: dot < i < |s| ==> s[i] != '.'
  {
    forall i | 0 <= i < |s| && i != at
      ensures s[i] != '@'
    {
      if i < at {
        assert s[..at][i] == s[i];
      } else if i < dot {
        assert s[at + 1..dot][i - at - 1] == s[i];
      } else if dot < i {
        assert s[dot + 1..][i - dot - 1] == s[i];
      }
    }
    forall i | dot < i < |s|
      ensures s[i] != '.'
    {
      assert s[dot + 1..][i - dot - 1] == s[i];
    }
  }

  /** Two different `@` signs make the pattern fail. */
  lemma TwoAtSignsNeverMatch(s: string, i: nat, j: nat)
    requires i < j < |s| && s[i] == '@' && s[j] == '@'
    ensures !MatchesEmailRegex(s)
  {
    if MatchesEmailRegex(s) {
      var at: nat, dot: nat :| at < dot < |s| && IsEmailSplit(s, at, dot);
      EmailSplitIsUnique(s, at, dot);
      assert false;
    }
  }

  /** Every string of the form `L@D.T` built from matching parts is accepted. */
  lemma EmailFromParts(local: string, domain: string, tld: string)
    requires IsLocalPart(local) && IsDomainPart(domain) && IsTopLevelPart(tld)
    ensures MatchesEmailRegex(local + "@" + domain + "." + tld)
  {
    var s := local + "@" + domain + "." + tld;
    var at, dot := |local|, |local| + 1 + |domain|;
    assert s[..at] == local;
    assert s[at + 1..dot] == domain;
    assert s[dot + 1..] == tld;
    assert IsEmailSplit(s, at, dot);
  }

  /** The converse of `EmailFromParts`: every accepted string is `L@D.T` for
      some parts of the three classes. With it, the three part predicates
      describe the language of the regex exactly. */
  lemma EmailHasParts(s: string)
    requires MatchesEmailRegex(s)
    ensures exists local, domain, tld ::
              IsLocalPart(local) && IsDomainPart(domain) && IsTopLevelPart(tld)
              && s == local + "@" + domain + "." + tld
  {
    var at: nat, dot: nat :| at < dot < |s| && IsEmailSplit(s, at, dot);
    assert s == s[..at] + "@" + s[at + 1..dot] + "." + s[dot + 1..];
  }

  // ---------------------------------------------------------------------
  // Image file-extension test
  // ---------------------------------------------------------------------

  const AllowedExtensions: seq<string> := ["jpg", "jpeg", "png", "webp"]

  /** `name.split(".").pop()`: the longest suffix of `name` without a dot, so
      the whole name when it has no dot and "" when it ends in a dot. */
  function LastSegment(name: string): (ext: string)
    ensures |ext| <= |name| && ext == name[|name| - |ext|..]
    ensures '.' !in ext
    ensures |ext| < |name| ==> name[|name| - |ext| - 1] == '.'
  {
    if name == [] then ""
    else if name[|name| - 1] == '.' then ""
    else LastSegment(name[..|name| - 1]) + [name[|name| - 1]]
  }

  /** The `fileFormat` test on a file's name. */
  predicate HasAllowedExtension(name: string) {
    AsciiLower(LastSegment(name)) in AllowedExtensions
  }

  /** A name without a dot is its own last segment. */
  lemma NoDotIsWholeName(name: string)
    requires '.' !in name
    ensures LastSegment(name) == name
  {
  }

  /** Only the text after the last dot decides. */
  lemma {:induction false} SegmentAfterLastDot(stem: string, ext: string)
    requires '.' !in ext
    ensures LastSegment(stem + "." + ext) == ext
  {
    if ext == [] {
      assert (stem + "." + ext)[|stem + "." + ext| - 1] == '.';
    } else {
      var shorter := ext[..|ext| - 1];
      assert (stem + "." + ext)[..|stem + "." + ext| - 1] == stem + "." + shorter;
      assert ext[|ext| - 1] in ext;
      assert forall c :: c in shorter ==> c in ext;
      SegmentAfterLastDot(stem, shorter);
      assert shorter + [ext[|ext| - 1]] == ext;
    }
  }

  /** Case does not matter: "a.PNG" passes. */
  lemma UpperCaseExtensionPasses()
    ensures HasAllowedExtension("a.PNG")
  {
    SegmentAfterLastDot("a", "PNG");
    assert "a" + "." + "PNG" == "a.PNG";
    assert AsciiLower("PNG") == "png";
  }

  /** Only the last segment counts: "a.png.exe" fails. */
  lemma InnerExtensionIgnored()
    ensures !HasAllowedExtension("a.png.exe")
  {
    SegmentAfterLastDot("a.png", "exe");
    assert "a.png" + "." + "exe" == "a.png.exe";
    assert AsciiLower("exe") == "exe";
  }

  /** A trailing dot leaves an empty extension, which fails. */
  lemma TrailingDotFails()
    ensures !HasAllowedExtension("photo.")
  {
    SegmentAfterLastDot("photo", "");
    assert "photo" + "." + "" == "photo.";
  }

  /** A name without a dot counts as a whole: a file named "png" passes. */
  lemma BareExtensionNamePasses()
    ensures HasAllowedExtension("png")
  {
    NoDotIsWholeName("png");
    assert AsciiLower("png") == "png";
  }
}
