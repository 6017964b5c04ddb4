/**
 * The avatar initials of the layout:
 * `name.split(' ').map(n => n[0]).join('').toUpperCase().slice(0, 2) || '?'`.
 */
module Layout {
  import opened Wrappers

  /** `s.split(' ')`: the segments between single spaces, empty ones included; "" gives [""]. */
  function SplitOnSpace(s: string): (parts: seq<string>)
    ensures |parts| >= 1
    ensures forall i :: 0 <= i < |parts| ==> ' ' !in parts[i]
  {
    if s == [] then [[]]
    else
      var rest := SplitOnSpace(s[1..]);
      if s[0] == ' ' then [[]] + rest
      else [[s[0]] + rest[0]] + rest[1..]
  }

  /** `.map(n => n[0]).join('')`: an empty segment's `undefined` joins as nothing. */
  function Heads(parts: seq<string>): string {
    if parts == [] then []
    else (if parts[0] == [] then [] else [parts[0][0]]) + Heads(parts[1..])
  }

  /** `toUpperCase` on one character (ASCII letters). */
  function UpperChar(c: char): char {
    if 'a' <= c <= 'z' then (c as int - 'a' as int + 'A' as int) as char else c
  }

  function Upper(s: string): (r: string)
    ensures |r| == |s| && forall i :: 0 <= i < |s| ==> r[i] == UpperChar(s[i])
  {
    if s == [] then [] else [UpperChar(s[0])] + Upper(s[1..])
  }

  /**
   * Independent definition by one left-to-right scan: the characters that
   * start a word, i.e. are not a space and follow a space or the start.
   */
  function Starts(s: string, afterSpace: bool): string {
    if s == [] then []
    else (if s[0] != ' ' && afterSpace then [s[0]] else []) + Starts(s[1..], s[0] == ' ')
  }

  function WordStarts(s: string): string {
    Starts(s, true)
  }

  /** `user?.name` is `None` when there is no user or the user has no name. */
  function Initials(name: Option<string>): (r: string)
    ensures 1 <= |r| <= 2
  {
    if name.None? then "?"
    else
      var joined := Upper(Heads(SplitOnSpace(name.value)));
      var sliced := joined[..if |joined| < 2 then |joined| else 2];
      if sliced == [] then "?" else sliced
  }

  /** The split/map/join chain picks exactly the word-start characters. */
  lemma {:induction false} HeadsAreWordStarts(s: string)
    ensures Heads(SplitOnSpace(s)) == Starts(s, true)
    ensures Heads(SplitOnSpace(s)[1..]) == Starts(s, false)
  {
    if s != [] {
      HeadsAreWordStarts(s[1..]);
      var rest := SplitOnSpace(s[1..]);
      if s[0] == ' ' {
        assert SplitOnSpace(s)[1..] == rest;
      } else {
        assert SplitOnSpace(s)[1..] == rest[1..];
      }
    }
  }

  lemma {:induction false} StartsAppend(a: string, b: string, afterSpace: bool)
    ensures Starts(a + b, afterSpace)
      == Starts(a, afterSpace) + Starts(b, if a == [] then afterSpace else a[|a| - 1] == ' ')
  {
    if a == [] {
      assert a + b == b;
    } else {
      assert (a + b)[0] == a[0] && (a + b)[1..] == a[1..] + b;
      StartsAppend(a[1..], b, a[0] == ' ');
      if |a| > 1 {
        assert a[1..][|a| - 2] == a[|a| - 1];
      }
    }
  }

  lemma UpperPrefix(s: string, k: nat)
    requires k <= |s|
    ensures Upper(s)[..k] == Upper(s[..k])
  {
  }

  /**
   * The initials are '?' exactly when there is no name or the name has no
   * word; otherwise they are the upper-cased starts of its first two words.
   */
  lemma InitialsCharacterised(name: Option<string>)
    ensures name.None? ==> Initials(name) == "?"
    ensures name.Some? && WordStarts(name.value) == [] ==> Initials(name) == "?"
    ensures name.Some? && WordStarts(name.value) != [] ==>
      var w := WordStarts(name.value);
      Initials(name) == Upper(w[..if |w| < 2 then |w| else 2])
  {
    if name.Some? {
      HeadsAreWordStarts(name.value);
      var w := WordStarts(name.value);
      UpperPrefix(w, if |w| < 2 then |w| else 2);
    }
  }

  /** Once a name has two words, nothing appended to it changes the initials. */
  lemma LaterWordsIgnored(a: string, b: string)
    requires |WordStarts(a)| >= 2
    ensures Initials(Some(a + b)) == Initials(Some(a))
  {
    StartsAppend(a, b, true);
    InitialsCharacterised(Some(a));
    InitialsCharacterised(Some(a + b));
    var w := WordStarts(a);
    assert (w + Starts(b, a[|a| - 1] == ' '))[..2] == w[..2];
  }

  lemma InitialsExamples()
    ensures Initials(Some("")) == "?" && Initials(Some("  ")) == "?" && Initials(None) == "?"
  {
  }
}
