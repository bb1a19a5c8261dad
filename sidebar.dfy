/** The sidebar: the initials shown in the user's avatar and the highlighting
    of the navigation item for the current path. */
module Sidebar {
  import opened Wrappers
  import Text
  import Seqs

  /** The signed-in user as the sidebar reads it. */
  datatype User = User(email: Option<string>, displayName: Option<string>)

  /** `s[0]` inside a template literal: the first character, or the text
      `undefined` when `s` is empty. */
  function FirstOrUndefined(s: string): (r: string)
    ensures s != [] ==> r == [s[0]]
    ensures s == [] ==> r == "undefined"
  {
    if s == [] then "undefined" else [s[0]]
  }

  predicate Present(s: Option<string>) {
    s.Some? && s.value != ""
  }

  /** `getUserInitials` as written: 'U' without a user or an e-mail; with a
      display name, the first characters of its first and last space-separated
      parts (or of the name itself when there is no space); otherwise the first
      character of the e-mail; upper-cased. */
  function Initials(user: Option<User>): (r: string)
    ensures user.None? || !Present(user.value.email) ==> r == "U"
    ensures (user.Some? && Present(user.value.email) && Present(user.value.displayName)
             && ' ' !in user.value.displayName.value) ==> r == [Text.UpperChar(user.value.displayName.value[0])]
    ensures user.Some? && Present(user.value.email) && !Present(user.value.displayName) ==>
      r == [Text.UpperChar(user.value.email.value[0])]
  {
    if user.None? || !Present(user.value.email) then "U"
    else if Present(user.value.displayName) then
      var name := user.value.displayName.value;
      var names := Text.Split(name, ' ');
      if |names| >= 2 then Text.ToUpper(FirstOrUndefined(names[0]) + FirstOrUndefined(names[|names| - 1]))
      else Text.ToUpper([name[0]])
    else Text.ToUpper([user.value.email.value[0]])
  }

  /** A word followed by one space splits into the word and an empty part. */
  lemma SplitTrailingSpace(word: string)
    requires ' ' !in word
    ensures Text.Split(word + " ", ' ') == [word, ""]
  {
    var s := word + " ";
    var i := Text.IndexOf(s, ' ');
    assert s[|word|] == ' ';
    assert s[..|word|] == word;
    assert i == |word|;
    assert s[..i] == word;
    assert s[i + 1..] == "";
  }

  /** Upper-casing a concatenation upper-cases each part. */
  lemma ToUpperAppend(a: string, b: string)
    ensures Text.ToUpper(a + b) == Text.ToUpper(a) + Text.ToUpper(b)
  {
  }

  /** A display name ending in a space yields the text `UNDEFINED` in place of
      the second initial. */
  lemma TrailingSpaceInitials(email: string, word: string)
    requires email != [] && word != [] && ' ' !in word
    ensures Initials(Some(User(Some(email), Some(word + " ")))) == [Text.UpperChar(word[0])] + "UNDEFINED"
  {
    SplitTrailingSpace(word);
    assert (word + " ")[0] == word[0];
    ToUpperAppend([word[0]], "undefined");
    assert Text.ToUpper("undefined") == "UNDEFINED";
  }

  /** The display name "Ann " gets the initials "AUNDEFINED". */
  lemma AnnInitials()
    ensures Initials(Some(User(Some("ann@example.com"), Some("Ann ")))) == "AUNDEFINED"
  {
    TrailingSpaceInitials("ann@example.com", "Ann");
    assert "Ann" + " " == "Ann ";
    assert [Text.UpperChar('A')] + "UNDEFINED" == "AUNDEFINED";
  }

  function NonEmptyTest(): string -> bool {
    (w: string) => w != ""
  }

  /** The non-empty space-separated parts of a name. */
  function Words(name: string): (ws: seq<string>)
    ensures forall k :: 0 <= k < |ws| ==> ws[k] != "" && ' ' !in ws[k]
    ensures forall w :: w in ws <==> w in Text.Split(name, ' ') && w != ""
  {
    var parts := Text.Split(name, ' ');
    var ws := Seqs.Filter(parts, NonEmptyTest());
    assert forall k :: 0 <= k < |ws| ==> ws[k] in parts;
    ws
  }

  /** The initials the function is evidently meant to give: the first letters
      of the first and last words of the display name, ignoring extra spaces,
      and the e-mail's first letter when the name has no word. */
  function InitialsCorrected(user: Option<User>): (r: string)
    ensures 1 <= |r| <= 2
    ensures user.None? || !Present(user.value.email) ==> r == "U"
  {
    if user.None? || !Present(user.value.email) then "U"
    else
      var ws := if user.value.displayName.Some? then Words(user.value.displayName.value) else [];
      if |ws| >= 2 then [Text.UpperChar(ws[0][0]), Text.UpperChar(ws[|ws| - 1][0])]
      else if |ws| == 1 then [Text.UpperChar(ws[0][0])]
      else [Text.UpperChar(user.value.email.value[0])]
  }

  /** The corrected initials of a word followed by a space are the word's
      first letter alone. */
  lemma CorrectedTrailingSpace(email: string, word: string)
    requires email != [] && word != [] && ' ' !in word
    ensures InitialsCorrected(Some(User(Some(email), Some(word + " ")))) == [Text.UpperChar(word[0])]
  {
    SplitTrailingSpace(word);
    assert Seqs.Filter([word, ""], NonEmptyTest()) == [word] by {
      assert [word, ""][1..] == [""];
      assert [""][1..] == [];
    }
  }

  /** The display name "Ann " gets the corrected initials "A". */
  lemma AnnCorrected()
    ensures InitialsCorrected(Some(User(Some("ann@example.com"), Some("Ann ")))) == "A"
  {
    CorrectedTrailingSpace("ann@example.com", "Ann");
    assert "Ann" + " " == "Ann ";
  }

  /** A name is well spaced when splitting it at spaces gives no empty part:
      no leading, trailing or doubled space. */
  predicate WellSpaced(name: string) {
    forall k :: 0 <= k < |Text.Split(name, ' ')| ==> Text.Split(name, ' ')[k] != ""
  }

  /** The initials both versions give a well-spaced name: the first letters of
      its first and last parts, or of the name when it has one part. */
  function WellSpacedInitials(name: string): string
    requires name != [] && WellSpaced(name)
  {
    var parts := Text.Split(name, ' ');
    if |parts| >= 2 then [Text.UpperChar(parts[0][0]), Text.UpperChar(parts[|parts| - 1][0])]
    else [Text.UpperChar(name[0])]
  }

  /** A well-spaced name with one part is the name itself. */
  lemma SinglePart(name: string)
    requires |Text.Split(name, ' ')| < 2
    ensures Text.Split(name, ' ') == [name]
  {
    assert ' ' !in name by {
      if ' ' in name { Text.SplitFirst(name, ' '); }
    }
  }

  /** The written function gives a well-spaced name its expected initials. */
  lemma InitialsOfWellSpaced(email: string, name: string)
    requires email != [] && name != [] && WellSpaced(name)
    ensures Initials(Some(User(Some(email), Some(name)))) == WellSpacedInitials(name)
  {
    var parts := Text.Split(name, ' ');
    if |parts| >= 2 {
      var first, last := parts[0], parts[|parts| - 1];
      assert FirstOrUndefined(first) + FirstOrUndefined(last) == [first[0], last[0]];
    }
  }

  /** The corrected function gives a well-spaced name its expected initials. */
  lemma CorrectedOfWellSpaced(email: string, name: string)
    requires email != [] && name != [] && WellSpaced(name)
    ensures InitialsCorrected(Some(User(Some(email), Some(name)))) == WellSpacedInitials(name)
  {
    var parts := Text.Split(name, ' ');
    Seqs.FilterKeepsAll(parts, NonEmptyTest());
    assert Words(name) == parts;
    if |parts| < 2 {
      SinglePart(name);
    }
  }

  /** Where the display name has no leading, trailing or doubled space, the
      written function and the corrected one agree. */
  lemma InitialsAgreeOnWellSpacedNames(email: string, name: string)
    requires email != [] && name != [] && WellSpaced(name)
    ensures Initials(Some(User(Some(email), Some(name)))) == InitialsCorrected(Some(User(Some(email), Some(name))))
  {
    InitialsOfWellSpaced(email, name);
    CorrectedOfWellSpaced(email, name);
  }

  /** The paths of the navigation items, in menu order. */
  const NavHrefs: seq<string> := ["/dashboard", "/quiz", "/appointments", "/agent", "/history"]

  /** For each navigation item, whether it is highlighted: its path equals the
      current one exactly. */
  function Highlighted(pathname: string): (active: seq<bool>)
    ensures |active| == |NavHrefs|
    ensures forall i :: 0 <= i < |active| ==> (active[i] <==> NavHrefs[i] == pathname)
  {
    seq(|NavHrefs|, i requires 0 <= i < |NavHrefs| => NavHrefs[i] == pathname)
  }

  /** At most one item is highlighted, and the health-history page highlights
      none. */
  lemma AtMostOneHighlighted(pathname: string)
    ensures forall i, j :: 0 <= i < j < |NavHrefs| ==> !(Highlighted(pathname)[i] && Highlighted(pathname)[j])
    ensures forall i :: 0 <= i < |NavHrefs| ==> !Highlighted("/health-history")[i]
  {
    var h := Highlighted(pathname);
    forall i, j | 0 <= i < j < |NavHrefs|
      ensures !(h[i] && h[j])
    {
      assert NavHrefs[i] != NavHrefs[j];
    }
  }
}
