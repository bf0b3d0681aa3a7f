/**
 * The two strings the page header derives from the signed-in user: the
 * avatar's initials (`getInitials`) and the name in the greeting. Both are
 * built from JavaScript's `split`, `[0]` and `toUpperCase`, which are
 * modelled here on `seq<char>`: `split` keeps empty parts, `[0]` of an empty
 * string is `undefined`, and `+` on two `undefined`s is `NaN`, which has no
 * `toUpperCase`.
 */
module Header {
  import opened Wrappers

  /** The parts put back together, `sep` between each two. */
  function Join(parts: seq<string>, sep: char): string
    requires |parts| >= 1
  {
    if |parts| == 1 then parts[0] else parts[0] + [sep] + Join(parts[1..], sep)
  }

  /** `s.split(sep)`: every maximal run without `sep`, empty runs included. */
  function Split(s: string, sep: char): (parts: seq<string>)
    ensures |parts| >= 1
    ensures Join(parts, sep) == s
    ensures forall i :: 0 <= i < |parts| ==> sep !in parts[i]
    ensures |parts| > 1 <==> sep in s
  {
    if |s| == 0 then [""]
    else
      var rest := Split(s[1..], sep);
      if s[0] == sep then
        assert s == [sep] + s[1..];
        [""] + rest
      else
        JoinCons(s[0], rest, sep);
        assert s == [s[0]] + s[1..];
        [[s[0]] + rest[0]] + rest[1..]
  }

  /** Putting a character in front of the first part puts it in front of the joined text. */
  lemma JoinCons(c: char, parts: seq<string>, sep: char)
    requires |parts| >= 1
    ensures Join([[c] + parts[0]] + parts[1..], sep) == [c] + Join(parts, sep)
  {
    var q := [[c] + parts[0]] + parts[1..];
    assert q[0] == [c] + parts[0] && q[1..] == parts[1..];
  }

  /** Splitting undoes joining parts that do not contain the separator. */
  lemma {:induction false} SplitJoin(parts: seq<string>, sep: char)
    requires |parts| >= 1
    requires forall i :: 0 <= i < |parts| ==> sep !in parts[i]
    ensures Split(Join(parts, sep), sep) == parts
  {
    if |parts| == 1 {
      SplitOfPlain(parts[0], sep);
    } else {
      SplitJoin(parts[1..], sep);
      SplitAppend(parts[0], Join(parts[1..], sep), sep);
      assert parts == [parts[0]] + parts[1..];
    }
  }

  /** A string without the separator splits into itself alone. */
  lemma SplitOfPlain(s: string, sep: char)
    requires sep !in s
    ensures Split(s, sep) == [s]
  {
  }

  /** Splitting `a + sep + b`, `a` free of the separator, gives `a` and then the parts of `b`. */
  lemma {:induction false} SplitAppend(a: string, b: string, sep: char)
    requires sep !in a
    ensures Split(a + [sep] + b, sep) == [a] + Split(b, sep)
  {
    if |a| == 0 {
      assert a + [sep] + b == [sep] + b;
      assert ([sep] + b)[1..] == b;
    } else {
      assert (a + [sep] + b)[1..] == a[1..] + [sep] + b;
      SplitAppend(a[1..], b, sep);
      assert [a[0]] + a[1..] == a;
    }
  }

  /** The first part of a split is the longest prefix without the separator. */
  lemma FirstPart(s: string, sep: char)
    ensures Split(s, sep)[0] <= s
    ensures sep !in Split(s, sep)[0]
    ensures |Split(s, sep)[0]| < |s| ==> s[|Split(s, sep)[0]|] == sep
  {
    var parts := Split(s, sep);
    if |parts| > 1 {
      assert s == parts[0] + [sep] + Join(parts[1..], sep);
      assert s[|parts[0]|] == ([sep] + Join(parts[1..], sep))[0];
    }
  }

  /** `toUpperCase` on one character, for the ASCII letters. */
  function UpperChar(c: char): (u: char)
    ensures 'a' <= c <= 'z' ==> u as int == c as int - 32 && 'A' <= u <= 'Z'
    ensures !('a' <= c <= 'z') ==> u == c
  {
    if 'a' <= c <= 'z' then (c as int - 32) as char else c
  }

  /** `toUpperCase`, character by character. */
  function Upper(s: string): (u: string)
    ensures |u| == |s|
    ensures forall i :: 0 <= i < |s| ==> u[i] == UpperChar(s[i])
  {
    seq(|s|, i requires 0 <= i < |s| => UpperChar(s[i]))
  }

  /** What the avatar shows: a string, or the `TypeError` thrown while computing it. */
  datatype Rendered = Shown(text: string) | Throws

  /** `s[0]`: a one-character string, or `undefined` for the empty string. */
  function Head(s: string): (h: Option<char>)
    ensures h.Some? <==> |s| > 0
    ensures h.Some? ==> h.value == s[0]
  {
    if |s| == 0 then None else Some(s[0])
  }

  /** `x + y` for two `s[0]` values: `undefined` prints as "undefined"; two of them add up to `NaN`. */
  function Plus(x: Option<char>, y: Option<char>): (r: Option<string>)
    ensures r.None? <==> x.None? && y.None?
    ensures x.Some? && y.Some? ==> r == Some([x.value, y.value])
  {
    match (x, y)
    case (Some(a), Some(b)) => Some([a, b])
    case (None, Some(b)) => Some("undefined" + [b])
    case (Some(a), None) => Some([a] + "undefined")
    case (None, None) => None
  }

  /**
   * `getInitials`, as written: "?" for the empty string; with a space, the
   * first characters of the first two space-separated parts; otherwise the
   * first character of an email address, or the first two of a name.
   */
  function GetInitials(nameOrEmail: string): (r: Rendered)
    ensures nameOrEmail == "" ==> r == Shown("?")
  {
    if nameOrEmail == "" then Shown("?")
    else
      var parts := Split(nameOrEmail, ' ');
      if |parts| > 1 then
        match Plus(Head(parts[0]), Head(parts[1]))
        case Some(pair) => Shown(Upper(pair))
        case None => Throws
      else if '@' in nameOrEmail then Shown(Upper([nameOrEmail[0]]))
      else Shown(Upper(nameOrEmail[..if |nameOrEmail| < 2 then |nameOrEmail| else 2]))
  }

  /** Two words give the capitals of their first letters, whatever follows the second. */
  lemma TwoWords(first: string, second: string, rest: string)
    requires first != "" && second != ""
    requires ' ' !in first && ' ' !in second
    ensures GetInitials(first + " " + second + rest) == Shown([UpperChar(first[0]), UpperChar(second[0])])
  {
    var s := first + " " + second + rest;
    assert s == first + [' '] + (second + rest);
    SplitAppend(first, second + rest, ' ');
    FirstPart(second + rest, ' ');
    var p1 := Split(second + rest, ' ')[0];
    assert |p1| > 0 && p1[0] == second[0] by {
      assert (second + rest)[0] == second[0];
    }
    var parts := Split(s, ' ');
    assert parts[0] == first && parts[1] == p1;
    assert Plus(Head(first), Head(p1)) == Some([first[0], second[0]]);
    assert Upper([first[0], second[0]]) == [UpperChar(first[0]), UpperChar(second[0])];
  }

  /** A space is looked for before an "@": text with a space gives two capitals even when it holds an "@". */
  lemma SpaceBeforeAt(first: string, second: string)
    requires first != "" && second != ""
    requires ' ' !in first && ' ' !in second && '@' in second
    ensures GetInitials(first + " " + second) == Shown([UpperChar(first[0]), UpperChar(second[0])])
  {
    TwoWords(first, second, "");
    assert first + " " + second + "" == first + " " + second;
  }

  /** An email address without a space gives one capital. */
  lemma EmailGivesOneLetter(email: string)
    requires email != "" && ' ' !in email && '@' in email
    ensures GetInitials(email) == Shown([UpperChar(email[0])])
  {
  }

  /** A one-word name without "@" gives its first two characters, in capitals. */
  lemma NameGivesTwoLetters(name: string)
    requires |name| >= 2 && ' ' !in name && '@' !in name
    ensures GetInitials(name) == Shown([UpperChar(name[0]), UpperChar(name[1])])
  {
  }

  /** A one-character name gives that character alone. */
  lemma ShortNameGivesOneLetter(c: char)
    requires c != ' ' && c != '@'
    ensures GetInitials([c]) == Shown([UpperChar(c)])
  {
  }

  /** A leading space leaves the first part empty, and "UNDEFINED" is shown. */
  lemma LeadingSpaceShowsUndefined(name: string)
    requires name != "" && ' ' !in name
    ensures GetInitials(" " + name) == Shown(Upper("undefined" + [name[0]]))
  {
    SplitAppend("", name, ' ');
    assert "" + [' '] + name == " " + name;
    SplitOfPlain(name, ' ');
  }

  /** A lone space leaves both parts empty: `undefined + undefined` is `NaN`, and `NaN.toUpperCase()` throws. */
  lemma LoneSpaceThrows()
    ensures GetInitials(" ") == Throws
  {
    assert Split(" ", ' ') == ["", ""];
  }

  /** A trailing space leaves the last part empty, and "UNDEFINED" follows the first letter. */
  lemma TrailingSpaceShowsUndefined(name: string)
    requires name != "" && ' ' !in name
    ensures GetInitials(name + " ") == Shown(Upper([name[0]] + "undefined"))
  {
    SplitAppend(name, "", ' ');
    assert name + [' '] + "" == name + " ";
  }

  /** Two spaces between two words leave an empty part between them, and "UNDEFINED" follows the first letter. */
  lemma DoubledSpaceShowsUndefined(first: string, second: string)
    requires first != "" && second != ""
    requires ' ' !in first && ' ' !in second
    ensures GetInitials(first + "  " + second) == Shown(Upper([first[0]] + "undefined"))
  {
    SplitAppend(first, " " + second, ' ');
    assert first + [' '] + (" " + second) == first + "  " + second;
    SplitAppend("", second, ' ');
    assert "" + [' '] + second == " " + second;
    SplitOfPlain(second, ' ');
  }

  /** The parts that are not empty, in order. */
  function Words(parts: seq<string>): (w: seq<string>)
    ensures |w| <= |parts|
    ensures forall i :: 0 <= i < |w| ==> w[i] != "" && w[i] in parts
    ensures forall i :: 0 <= i < |parts| && parts[i] != "" ==> parts[i] in w
    ensures (forall i :: 0 <= i < |parts| ==> parts[i] != "") ==> w == parts
  {
    if |parts| == 0 then []
    else if parts[0] == "" then Words(parts[1..])
    else
      var w := [parts[0]] + Words(parts[1..]);
      assert parts == [parts[0]] + parts[1..];
      w
  }

  /** Dropping empty parts keeps the order: the words of a concatenation are the words of each half. */
  lemma {:induction false} WordsAppend(a: seq<string>, b: seq<string>)
    ensures Words(a + b) == Words(a) + Words(b)
  {
    if |a| > 0 {
      assert (a + b)[0] == a[0] && (a + b)[1..] == a[1..] + b;
      WordsAppend(a[1..], b);
    } else {
      assert a + b == b;
    }
  }

  /**
   * `getInitials` as evidently intended: empty parts are skipped, so the
   * avatar always shows one or two characters.
   */
  function GetInitialsIntended(nameOrEmail: string): (r: string)
    ensures 1 <= |r| <= 2
  {
    var words := Words(Split(nameOrEmail, ' '));
    if |words| == 0 then "?"
    else if |words| > 1 then Upper([words[0][0], words[1][0]])
    else if '@' in words[0] then Upper([words[0][0]])
    else Upper(words[0][..if |words[0]| < 2 then |words[0]| else 2])
  }

  /** Where no part is empty, the intended initials are what the written code shows. */
  lemma IntendedAgreesWithoutEmptyParts(nameOrEmail: string)
    requires nameOrEmail != ""
    requires forall i :: 0 <= i < |Split(nameOrEmail, ' ')| ==> Split(nameOrEmail, ' ')[i] != ""
    ensures GetInitials(nameOrEmail) == Shown(GetInitialsIntended(nameOrEmail))
  {
    var parts := Split(nameOrEmail, ' ');
    if |parts| == 1 {
      assert parts[0] == nameOrEmail by { assert Join(parts, ' ') == parts[0]; }
    }
  }

  /**
   * Where the written code fails or shows "UNDEFINED", ten characters long,
   * the intended one shows what it shows for the text without the space.
   */
  lemma IntendedOnEmptyParts(name: string)
    requires name != "" && ' ' !in name
    ensures GetInitials(" ") == Throws && GetInitialsIntended(" ") == "?"
    ensures |GetInitials(" " + name).text| == 10
    ensures GetInitialsIntended(" " + name) == GetInitialsIntended(name)
  {
    LoneSpaceThrows();
    LeadingSpaceShowsUndefined(name);
    SplitAppend("", name, ' ');
    assert "" + [' '] + name == " " + name;
    SplitOfPlain(name, ' ');
    assert Words(["", name]) == [name] by {
      assert ["", name][1..] == [name];
    }
  }

  /** What `getInitials` is given: the display name, else the email, else "". */
  function AvatarSource(displayName: Option<string>, email: Option<string>): (s: string)
    ensures displayName.Some? && displayName.value != "" ==> s == displayName.value
    ensures (displayName.None? || displayName.value == "") && email.Some? ==> s == email.value
    ensures (displayName.None? || displayName.value == "") && email.None? ==> s == ""
  {
    if displayName.Some? && displayName.value != "" then displayName.value
    else if email.Some? then email.value
    else ""
  }

  /**
   * The greeting's name: the display name's first word, or, when that is
   * empty or there is no display name, the email's part before "@"; nothing
   * when neither exists. For a display name that starts with a character
   * other than a space this is its first word; otherwise it is the email up
   * to its "@".
   */
  function GreetingName(displayName: Option<string>, email: Option<string>): (name: string)
    ensures displayName.Some? && displayName.value != "" && displayName.value[0] != ' ' ==>
      && name <= displayName.value && ' ' !in name && name != ""
      && (|name| < |displayName.value| ==> displayName.value[|name|] == ' ')
    ensures !(displayName.Some? && displayName.value != "" && displayName.value[0] != ' ') && email.Some? ==>
      && name <= email.value && '@' !in name
      && (|name| < |email.value| ==> email.value[|name|] == '@')
    ensures !(displayName.Some? && displayName.value != "" && displayName.value[0] != ' ') && email.None? ==>
      name == ""
  {
    FirstPart(if displayName.Some? then displayName.value else "", ' ');
    FirstPart(if email.Some? then email.value else "", '@');
    var fromName := if displayName.Some? then Split(displayName.value, ' ')[0] else "";
    if fromName != "" then fromName
    else if email.Some? then Split(email.value, '@')[0]
    else ""
  }
}
