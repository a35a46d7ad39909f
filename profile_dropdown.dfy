/** The avatar initials of the profile menu (`src/components/ProfileDropdown.tsx`). */
module ProfileDropdown {
  import opened Wrappers
  import opened Strings
  import opened Js

  /** `words.map(n => n[0]).join('')`: each word's first character; an
      empty word yields `undefined`, which `join` writes as nothing. There
      is at most one character per word, and exactly one per word when no
      word is empty. */
  function FirstChars(words: seq<string>): (r: string)
    ensures |r| <= |words|
    ensures (forall i :: 0 <= i < |words| ==> words[i] != []) ==> |r| == |words|
  {
    if words == [] then []
    else (if words[0] == [] then [] else [words[0][0]]) + FirstChars(words[1..])
  }

  /** `getInitials`: with a non-empty full name, the first characters of
      its space-separated words, at most two, upper-cased; otherwise the
      first two characters of the e-mail address upper-cased, or `U` when
      that is missing or empty. */
  function Initials(fullName: Option<string>, email: Option<string>): (r: string)
    ensures |r| <= 2
  {
    if fullName.Some? && fullName.value != "" then
      ToUpperCase(Take(FirstChars(Split(fullName.value, ' ')), 2))
    else
      OrElse(if email.Some? then Some(ToUpperCase(Take(email.value, 2))) else None, "U")
  }

  /** The characters of `s` that start a word: non-space characters that
      come first or right after a space (`atStart` says whether the text
      before `s` ended in a space or was empty). */
  function WordStarts(s: string, atStart: bool): string
  {
    if s == [] then []
    else if s[0] == ' ' then WordStarts(s[1..], true)
    else (if atStart then [s[0]] else []) + WordStarts(s[1..], false)
  }

  /** A space-free run contributes its first character when it starts a
      word, and nothing else. */
  lemma {:induction false} SpaceFreeRun(w: string, rest: string, atStart: bool)
    requires ' ' !in w
    ensures WordStarts(w + rest, atStart) ==
      (if atStart && w != [] then [w[0]] else []) + WordStarts(rest, atStart && w == [])
    decreases |w|
  {
    if w == [] {
      assert w + rest == rest;
    } else {
      assert (w + rest)[0] == w[0];
      assert w[0] in w;
      assert (w + rest)[1..] == w[1..] + rest;
      assert forall c :: c in w[1..] ==> c in w;
      SpaceFreeRun(w[1..], rest, false);
    }
  }

  /** Mapping the words of a split to their first characters picks exactly
      the word-starting characters: runs of spaces, which make empty words,
      contribute nothing. */
  lemma {:induction false} FirstCharsOfSplit(s: string)
    ensures FirstChars(Split(s, ' ')) == WordStarts(s, true)
    decreases |s|
  {
    var k := IndexOf(s, ' ');
    if k == |s| {
      SplitWithoutSeparator(s, ' ');
      SpaceFreeRun(s, [], true);
      assert s + [] == s;
      assert FirstChars([s]) == (if s == [] then [] else [s[0]]) + FirstChars([]);
    } else {
      var w := s[..k];
      var tail := s[k + 1..];
      assert s == w + ([' '] + tail);
      assert ' ' !in w;
      SpaceFreeRun(w, [' '] + tail, true);
      assert ([' '] + tail)[1..] == tail;
      FirstCharsOfSplit(tail);
      assert Split(s, ' ') == [w] + Split(tail, ' ');
      assert ([w] + Split(tail, ' '))[1..] == Split(tail, ' ');
    }
  }

  /** With a non-empty name the initials are the upper-cased first two
      word-starting characters of the name. */
  lemma InitialsFromName(name: string, email: Option<string>)
    requires name != ""
    ensures Initials(Some(name), email) == ToUpperCase(Take(WordStarts(name, true), 2))
  {
    FirstCharsOfSplit(name);
  }

  /** A name made only of spaces gives empty initials, not the `U`
      placeholder. */
  lemma SpacesOnlyName(name: string, email: Option<string>)
    requires name != "" && forall i :: 0 <= i < |name| ==> name[i] == ' '
    ensures Initials(Some(name), email) == ""
  {
    InitialsFromName(name, email);
    NoWordStarts(name, true);
  }

  lemma {:induction false} NoWordStarts(s: string, atStart: bool)
    requires forall i :: 0 <= i < |s| ==> s[i] == ' '
    ensures WordStarts(s, atStart) == []
    decreases |s|
  {
    if s != [] {
      assert s[0] == ' ';
      NoWordStarts(s[1..], true);
    }
  }

  /** Without a name the e-mail decides: its first two characters
      upper-cased, or `U` when it is missing or empty. */
  lemma InitialsFromEmail(fullName: Option<string>, email: Option<string>)
    requires fullName.None? || fullName.value == ""
    ensures Initials(fullName, email) ==
      if email.Some? && email.value != "" then ToUpperCase(Take(email.value, 2)) else "U"
    ensures email.Some? && email.value != "" ==> |Initials(fullName, email)| == (if |email.value| < 2 then 1 else 2)
  {
  }
}
