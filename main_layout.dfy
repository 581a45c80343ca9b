/** The page layout's user badge: the signed-in user read from browser
    storage, and the initials shown in the avatar. */
module MainLayout {
  import opened Common

  const Space: char := ' '

  /** `s.split(sep)`: the pieces between separators, in order; there is
      always at least one, and "" splits into [""]. */
  function Split(s: string, sep: char): (pieces: seq<string>)
    ensures |pieces| >= 1
    ensures forall k :: 0 <= k < |pieces| ==> sep !in pieces[k]
    ensures Join(pieces, sep) == s
    decreases |s|
  {
    if s == [] then [""]
    else
      var rest := Split(s[1..], sep);
      if s[0] == sep then
        assert Join([""] + rest, sep) == [sep] + Join(rest, sep) by {
          assert ([""] + rest)[1..] == rest;
        }
        [""] + rest
      else
        var pieces := [[s[0]] + rest[0]] + rest[1..];
        JoinConsFirst(rest, s[0], sep);
        pieces
  }

  /** `pieces.join(sep)`. */
  function Join(pieces: seq<string>, sep: char): string
    requires |pieces| >= 1
    decreases |pieces|
  {
    if |pieces| == 1 then pieces[0] else pieces[0] + [sep] + Join(pieces[1..], sep)
  }

  /** Putting a character in front of the first piece puts it in front of the join. */
  lemma JoinConsFirst(pieces: seq<string>, c: char, sep: char)
    requires |pieces| >= 1
    ensures Join([[c] + pieces[0]] + pieces[1..], sep) == [c] + Join(pieces, sep)
  {
    var q := [[c] + pieces[0]] + pieces[1..];
    if |pieces| > 1 {
      assert q[1..] == pieces[1..];
    }
  }

  /** Splitting undoes joining pieces that do not contain the separator. */
  lemma {:induction false} SplitJoin(pieces: seq<string>, sep: char)
    requires |pieces| >= 1
    requires forall k :: 0 <= k < |pieces| ==> sep !in pieces[k]
    ensures Split(Join(pieces, sep), sep) == pieces
    decreases |pieces|, |pieces[0]|
  {
    var p := pieces[0];
    if p == [] {
      if |pieces| > 1 {
        SplitJoin(pieces[1..], sep);
        assert Join(pieces, sep) == [sep] + Join(pieces[1..], sep);
        assert [""] + pieces[1..] == pieces;
      }
    } else {
      var shorter := [p[1..]] + pieces[1..];
      assert forall k :: 0 <= k < |shorter| ==> sep !in shorter[k] by {
        forall k | 0 <= k < |shorter| ensures sep !in shorter[k] {
          if k == 0 {
            assert forall x :: x in p[1..] ==> x in p;
          } else {
            assert shorter[k] == pieces[k];
          }
        }
      }
      SplitJoin(shorter, sep);
      assert [p[0]] + p[1..] == p;
      JoinConsFirst(shorter, p[0], sep);
      assert [[p[0]] + shorter[0]] + shorter[1..] == pieces;
      var s := Join(pieces, sep);
      assert s[0] == p[0] && s[1..] == Join(shorter, sep);
      assert p[0] in p;
    }
  }

  /** ASCII `toUpperCase`. */
  function UpperChar(c: char): char
  {
    if 'a' <= c <= 'z' then (c as int - 32) as char else c
  }

  function Upper(s: string): (u: string)
    ensures |u| == |s|
    ensures forall i :: 0 <= i < |s| ==> u[i] == UpperChar(s[i])
  {
    seq(|s|, i requires 0 <= i < |s| => UpperChar(s[i]))
  }

  /** `.map(n => n[0]).join('')`: the first character of each piece; an empty
      piece gives `undefined`, which joins as "". */
  function FirstChars(pieces: seq<string>): string
  {
    if pieces == [] then ""
    else (if pieces[0] == "" then "" else [pieces[0][0]]) + FirstChars(pieces[1..])
  }

  /** The non-empty pieces, in order. */
  function NonEmpty(pieces: seq<string>): (ne: seq<string>)
    ensures forall k :: 0 <= k < |ne| ==> ne[k] != ""
  {
    if pieces == [] then []
    else (if pieces[0] == "" then [] else [pieces[0]]) + NonEmpty(pieces[1..])
  }

  /** The joined first characters are the first characters of the non-empty
      pieces, one each, in order. */
  lemma {:induction false} FirstCharsOfNonEmpty(pieces: seq<string>)
    ensures var ne := NonEmpty(pieces);
      |FirstChars(pieces)| == |ne|
      && forall k :: 0 <= k < |ne| ==> FirstChars(pieces)[k] == ne[k][0]
  {
    if pieces != [] {
      FirstCharsOfNonEmpty(pieces[1..]);
    }
  }

  /** `getInitials(name)`. */
  function GetInitials(name: string): string
  {
    var letters := Upper(FirstChars(Split(name, Space)));
    if |letters| <= 2 then letters else letters[..2]
  }

  /** At most two characters: the upper-cased first characters of the first
      two non-empty space-separated words of `name`, in order; runs of spaces
      add nothing. */
  lemma GetInitialsSpec(name: string)
    ensures var words := NonEmpty(Split(name, Space));
      var r := GetInitials(name);
      && |r| == (if |words| < 2 then |words| else 2)
      && forall k :: 0 <= k < |r| ==> r[k] == UpperChar(words[k][0])
  {
    FirstCharsOfNonEmpty(Split(name, Space));
  }

  /** "john doe" gives "JD". */
  lemma InitialsOfTwoWords()
    ensures GetInitials("john doe") == "JD"
  {
    var pieces := ["john", "doe"];
    assert Join(pieces, Space) == "john doe";
    SplitJoin(pieces, Space);
    assert FirstChars(pieces) == "jd";
    assert Upper("jd") == "JD";
  }

  /** Repeated and surrounding spaces contribute nothing: "  ana  " gives "A". */
  lemma InitialsIgnoreExtraSpaces()
    ensures GetInitials("  ana  ") == "A"
  {
    var pieces := ["", "", "ana", "", ""];
    assert Join(pieces, Space) == "  ana  ";
    SplitJoin(pieces, Space);
    assert FirstChars(pieces) == "a";
    assert Upper("a") == "A";
  }

  /** A single word without spaces yields one character, its first, upper-cased. */
  lemma SingleWordInitial(word: string)
    requires word != "" && Space !in word
    ensures GetInitials(word) == [UpperChar(word[0])]
  {
    SplitJoin([word], Space);
    assert Split(word, Space) == [word];
    assert FirstChars([word]) == [word[0]];
  }

  /** The stored user record; only `name` is read. */
  datatype User = User(name: string)

  class Layout {
    var user: Option<User>

    constructor ()
      ensures user == None
    {
      user := None;
    }

    /** The mount effect, with `stored` the `user` entry of browser storage
        and `parsed` the value `JSON.parse` gives for it (`None` when it
        throws): the user is set only when an entry is present and parses. */
    method LoadStoredUser(stored: Option<string>, parsed: Option<User>)
      modifies this
      ensures user == if Truthy(stored) && parsed.Some? then parsed else old(user)
    {
      if Truthy(stored) {
        if parsed.Some? {
          user := parsed;
        }
      }
    }

    /** The avatar: shown exactly when there is a user, with its initials. */
    function Avatar(): (initials: Option<string>)
      reads this
      ensures initials.Some? <==> user.Some?
      ensures initials.Some? ==> |initials.value| <= 2
    {
      if user.Some? then
        GetInitialsSpec(user.value.name);
        Some(GetInitials(user.value.name))
      else None
    }
  }
}
