/** frontend/src/components/Navbar.jsx: the two pure helpers behind the
    navigation bar, the dashboard link chosen from the user's role and the
    initials shown in the avatar. */
module Navbar {

  import opened Outcomes
  import opened Text

  datatype Link = Link(href: string, title: string)

  const HomeLink: Link := Link("/", "Home")

  /** `getDashboardLink(user?.role)`; `None` is an absent role. The match is
      exact: only the capitalised role names have a dashboard. */
  function GetDashboardLink(role: Option<string>): (r: Link)
    ensures r.href == "/admin" <==> role == Some("Admin")
    ensures r.href == "/donor" <==> role == Some("Donor")
    ensures r.href == "/creator" <==> role == Some("Creator")
    ensures r.href == "/admin" ==> r.title == "Admin Dashboard"
    ensures r.href == "/donor" ==> r.title == "Donor Dashboard"
    ensures r.href == "/creator" ==> r.title == "Creator Dashboard"
    ensures role !in {Some("Admin"), Some("Donor"), Some("Creator")} ==> r == HomeLink
  {
    match role
    case Some("Admin") => Link("/admin", "Admin Dashboard")
    case Some("Donor") => Link("/donor", "Donor Dashboard")
    case Some("Creator") => Link("/creator", "Creator Dashboard")
    case _ => HomeLink
  }

  /** The three dashboards are distinct from each other and from Home. */
  lemma DashboardsDistinct(a: Option<string>, b: Option<string>)
    requires GetDashboardLink(a) != HomeLink && GetDashboardLink(b) != HomeLink
    ensures GetDashboardLink(a) == GetDashboardLink(b) <==> a == b
  {
  }

  /** `pieces.map(n => n[0]).join("")`: a missing first character (an empty
      piece) joins as the empty string. */
  function FirstChars(pieces: seq<string>): string {
    if pieces == [] then ""
    else (if pieces[0] == [] then "" else [pieces[0][0]]) + FirstChars(pieces[1..])
  }

  /** The pieces that have a first character, in order. */
  function NonEmptyPieces(pieces: seq<string>): (r: seq<string>)
    ensures forall k :: 0 <= k < |r| ==> r[k] != [] && r[k] in pieces
  {
    if pieces == [] then []
    else (if pieces[0] == [] then [] else [pieces[0]]) + NonEmptyPieces(pieces[1..])
  }

  /** `getInitials(name)`: the upper-cased first character of every non-empty
      space-separated piece of the name, in order, and never a space. */
  function GetInitials(name: string): (r: string)
    ensures |r| == |NonEmptyPieces(Split(name, ' '))|
    ensures forall k :: 0 <= k < |r| ==> r[k] == UpperChar(NonEmptyPieces(Split(name, ' '))[k][0])
    ensures ' ' !in r
  {
    SplitPieces(name, ' ');
    FirstCharsShape(Split(name, ' '));
    Upper(FirstChars(Split(name, ' ')))
  }

  /** One initial per non-empty piece, its first character, and no piece
      starts with a space. */
  lemma {:induction false} FirstCharsShape(pieces: seq<string>)
    requires forall k :: 0 <= k < |pieces| ==> ' ' !in pieces[k]
    ensures |FirstChars(pieces)| == |NonEmptyPieces(pieces)|
    ensures forall k :: 0 <= k < |FirstChars(pieces)| ==> FirstChars(pieces)[k] == NonEmptyPieces(pieces)[k][0]
    ensures ' ' !in FirstChars(pieces)
    ensures ' ' !in Upper(FirstChars(pieces))
  {
    if pieces != [] {
      FirstCharsShape(pieces[1..]);
      var head := if pieces[0] == [] then "" else [pieces[0][0]];
      var heads := if pieces[0] == [] then [] else [pieces[0]];
      assert FirstChars(pieces) == head + FirstChars(pieces[1..]);
      assert NonEmptyPieces(pieces) == heads + NonEmptyPieces(pieces[1..]);
      assert |head| == |heads|;
    }
    var u := Upper(FirstChars(pieces));
    forall i | 0 <= i < |u| ensures u[i] != ' ' {
      assert u[i] == UpperChar(FirstChars(pieces)[i]);
    }
  }

  /** A single word gives its first character, upper-cased. */
  lemma SingleWord(word: string)
    requires word != [] && ' ' !in word
    ensures GetInitials(word) == [UpperChar(word[0])]
  {
    SplitNoSeparator(word, ' ');
    assert [word][1..] == [];
    assert FirstChars([word]) == [word[0]];
  }

  /** Two words give two initials, whatever the number of spaces between
      them: the empty pieces between repeated spaces contribute nothing. */
  lemma TwoWords(first: string, last: string, gap: nat)
    requires first != [] && last != [] && ' ' !in first && ' ' !in last
    ensures GetInitials(first + Spaces(gap + 1) + last) == [UpperChar(first[0]), UpperChar(last[0])]
  {
    var rest := Spaces(gap) + last;
    assert first + Spaces(gap + 1) + last == first + [' '] + rest;
    SplitAfterWord(first, rest, ' ');
    SplitNoSeparator(last, ' ');
    SpacesThenWord(gap, last);
    var pieces := [first] + Split(rest, ' ');
    assert FirstChars(pieces) == [first[0]] + FirstChars(Split(rest, ' '));
  }

  function Spaces(n: nat): string {
    if n == 0 then "" else " " + Spaces(n - 1)
  }

  /** `n` leading spaces add `n` empty pieces, which give no initials. */
  lemma {:induction false} SpacesThenWord(n: nat, word: string)
    requires word != [] && ' ' !in word
    ensures FirstChars(Split(Spaces(n) + word, ' ')) == [word[0]]
  {
    if n == 0 {
      assert Spaces(0) + word == word;
      SplitNoSeparator(word, ' ');
    } else {
      assert Spaces(n) + word == "" + [' '] + (Spaces(n - 1) + word);
      SplitAfterWord("", Spaces(n - 1) + word, ' ');
      SpacesThenWord(n - 1, word);
      var pieces := [""] + Split(Spaces(n - 1) + word, ' ');
      assert pieces[1..] == Split(Spaces(n - 1) + word, ' ');
    }
  }
}
