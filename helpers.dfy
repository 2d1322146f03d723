/** `getInitials`: the first characters of the space-separated words of a name, upper
    case, at most two of them. */
module Helpers {
  import Text

  /** `words.map((n) => n[0]).join('')`: an empty word maps to `undefined`, which `join`
      writes as nothing. */
  function FirstChars(words: seq<string>): (r: string)
    ensures |r| <= |words|
    ensures forall i :: 0 <= i < |r| ==> exists k :: 0 <= k < |words| && words[k] != "" && r[i] == words[k][0]
  {
    if words == [] then ""
    else
      var rest := FirstChars(words[1..]);
      assert forall k :: 0 <= k < |words[1..]| ==> words[1..][k] == words[k + 1];
      (if words[0] == "" then "" else [words[0][0]]) + rest
  }

  lemma {:induction false} FirstCharsConcat(a: seq<string>, b: seq<string>)
    ensures FirstChars(a + b) == FirstChars(a) + FirstChars(b)
  {
    if a == [] {
      assert a + b == b;
    } else {
      assert (a + b)[1..] == a[1..] + b;
      assert (a + b)[0] == a[0];
      FirstCharsConcat(a[1..], b);
    }
  }

  function GetInitials(name: string): (r: string)
    ensures |r| <= 2
    ensures Text.NoAsciiLower(r)
  {
    var all := Text.ToUpper(FirstChars(Text.Split(name, ' ')));
    Text.ToUpperIdempotent(FirstChars(Text.Split(name, ' ')));
    if |all| <= 2 then all else all[..2]
  }

  /** The initials are upper case already: upper-casing them again changes nothing. */
  lemma InitialsUpperCase(name: string)
    ensures Text.ToUpper(GetInitials(name)) == GetInitials(name)
  {
    var r := GetInitials(name);
    assert forall i :: 0 <= i < |r| ==> Text.UpperChar(r[i]) == r[i];
  }

  lemma InitialsOfEmpty()
    ensures GetInitials("") == ""
  {
    assert Text.Split("", ' ') == [""];
    assert FirstChars([""]) == "";
  }

  /** Two words give their first letters, in order. */
  lemma InitialsOfTwoWords(first: string, last: string)
    requires first != "" && last != "" && ' ' !in first && ' ' !in last
    ensures GetInitials(first + " " + last) == Text.ToUpper([first[0], last[0]])
  {
    Text.SplitConcat(first, last, ' ');
    Text.SplitNoSep(last, ' ');
    assert first + " " + last == first + [' '] + last;
    assert FirstChars([first, last]) == [first[0], last[0]] by {
      assert [first, last][1..] == [last];
      assert [last][1..] == [];
    }
  }

  /** A repeated space adds an empty word, which contributes nothing. */
  lemma InitialsIgnoreRepeatedSpaces(first: string, last: string)
    requires ' ' !in first
    ensures GetInitials(first + "  " + last) == GetInitials(first + " " + last)
  {
    var rest := Text.Split(last, ' ');
    SplitDoubledSpace(first, last);
    SplitSingleSpace(first, last);
    FirstCharsSkipEmpty(first, rest);
    SameWordsSameInitials(first + "  " + last, first + " " + last);
  }

  lemma SplitDoubledSpace(first: string, last: string)
    requires ' ' !in first
    ensures Text.Split(first + "  " + last, ' ') == [first] + ([""] + Text.Split(last, ' '))
  {
    var t := [' '] + last;
    assert first + "  " + last == first + [' '] + t;
    Text.SplitConcat(first, t, ' ');
    SplitLeadingSpace(last);
  }

  lemma SplitLeadingSpace(last: string)
    ensures Text.Split([' '] + last, ' ') == [""] + Text.Split(last, ' ')
  {
    assert ([' '] + last)[0] == ' ' && ([' '] + last)[1..] == last;
  }

  lemma SplitSingleSpace(first: string, last: string)
    requires ' ' !in first
    ensures Text.Split(first + " " + last, ' ') == [first] + Text.Split(last, ' ')
  {
    assert first + " " + last == first + [' '] + last;
    Text.SplitConcat(first, last, ' ');
  }

  lemma FirstCharsSkipEmpty(first: string, rest: seq<string>)
    ensures FirstChars([first] + ([""] + rest)) == FirstChars([first] + rest)
  {
    FirstCharsConcat([first], [""] + rest);
    FirstCharsConcat([first], rest);
    var padded := [""] + rest;
    assert padded[0] == "" && padded[1..] == rest;
    assert FirstChars(padded) == FirstChars(rest);
  }

  lemma SameWordsSameInitials(a: string, b: string)
    requires FirstChars(Text.Split(a, ' ')) == FirstChars(Text.Split(b, ' '))
    ensures GetInitials(a) == GetInitials(b)
  {
  }
}
