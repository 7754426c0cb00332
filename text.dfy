/** The inline clean-up `text.replace('\n', '').replace('  ', ' ').strip()` applied to
    catalog fields and to the ProductDefinition metadata. */
module Text {
  import opened Strings

  /** `replace('\n', '')`. */
  function DropNewlines(s: string): string
  {
    if s == [] then [] else (if s[0] == '\n' then [] else [s[0]]) + DropNewlines(s[1..])
  }

  /** `replace('  ', ' ')`: one left-to-right pass over non-overlapping pairs of spaces. */
  function HalveSpaces(s: string): string
  {
    if |s| >= 2 && s[0] == ' ' && s[1] == ' ' then [' '] + HalveSpaces(s[2..])
    else if s == [] then []
    else [s[0]] + HalveSpaces(s[1..])
  }

  function TrimStart(s: string): string
  {
    if s != [] && IsSpace(s[0]) then TrimStart(s[1..]) else s
  }

  function TrimEnd(s: string): string
  {
    if s != [] && IsSpace(s[|s| - 1]) then TrimEnd(s[..|s| - 1]) else s
  }

  /** `strip()`. */
  function Strip(s: string): string
  {
    TrimEnd(TrimStart(s))
  }

  function Normalize(s: string): string
  {
    Strip(HalveSpaces(DropNewlines(s)))
  }

  function Spaces(k: nat): (r: string)
  {
    if k == 0 then [] else [' '] + Spaces(k - 1)
  }

  predicate Clean(t: string)
  {
    (forall k :: 0 <= k < |t| ==> t[k] != '\n') &&
    (t != [] ==> !IsSpace(t[0]) && !IsSpace(t[|t| - 1]))
  }

  lemma {:induction false} DropNewlinesFacts(s: string)
    ensures |DropNewlines(s)| <= |s|
    ensures forall k :: 0 <= k < |DropNewlines(s)| ==> DropNewlines(s)[k] != '\n'
  {
    if s != [] {
      DropNewlinesFacts(s[1..]);
    }
  }

  /** Halving introduces no character and never lengthens. */
  lemma {:induction false} HalveSpacesFacts(s: string)
    ensures |HalveSpaces(s)| <= |s|
    ensures forall k :: 0 <= k < |HalveSpaces(s)| ==> HalveSpaces(s)[k] in s
    decreases |s|
  {
    if |s| >= 2 && s[0] == ' ' && s[1] == ' ' {
      HalveSpacesFacts(s[2..]);
      forall k | 0 <= k < |HalveSpaces(s)| ensures HalveSpaces(s)[k] in s {
        if k > 0 {
          assert HalveSpaces(s)[k] == HalveSpaces(s[2..])[k - 1];
        }
      }
    } else if s != [] {
      HalveSpacesFacts(s[1..]);
      forall k | 0 <= k < |HalveSpaces(s)| ensures HalveSpaces(s)[k] in s {
        if k > 0 {
          assert HalveSpaces(s)[k] == HalveSpaces(s[1..])[k - 1];
        }
      }
    }
  }

  lemma {:induction false} TrimStartFacts(s: string)
    ensures exists i :: 0 <= i <= |s| && TrimStart(s) == s[i..]
    ensures TrimStart(s) != [] ==> !IsSpace(TrimStart(s)[0])
  {
    if s != [] && IsSpace(s[0]) {
      TrimStartFacts(s[1..]);
      var i :| 0 <= i <= |s[1..]| && TrimStart(s[1..]) == s[1..][i..];
      assert s[1..][i..] == s[i + 1..];
    } else {
      assert s == s[0..];
    }
  }

  lemma {:induction false} TrimEndFacts(s: string)
    ensures exists j :: 0 <= j <= |s| && TrimEnd(s) == s[..j]
    ensures TrimEnd(s) != [] ==> !IsSpace(TrimEnd(s)[|TrimEnd(s)| - 1])
    decreases |s|
  {
    if s != [] && IsSpace(s[|s| - 1]) {
      TrimEndFacts(s[..|s| - 1]);
      var j :| 0 <= j <= |s| - 1 && TrimEnd(s[..|s| - 1]) == s[..|s| - 1][..j];
      assert s[..|s| - 1][..j] == s[..j];
    } else {
      assert s == s[..|s|];
    }
  }

  lemma {:induction false} TrimEndKeepsStart(s: string)
    requires s != [] && !IsSpace(s[0])
    ensures TrimEnd(s) != [] ==> TrimEnd(s)[0] == s[0]
  {
    TrimEndFacts(s);
  }

  /** `strip()` keeps a stretch of its input. */
  lemma {:induction false} StripWithin(b: string)
    ensures exists i, j :: 0 <= i <= j <= |b| && Strip(b) == b[i..j]
  {
    var c := TrimStart(b);
    TrimStartFacts(b);
    TrimEndFacts(c);
    var i :| 0 <= i <= |b| && c == b[i..];
    var j :| 0 <= j <= |c| && TrimEnd(c) == c[..j];
    assert b[i..][..j] == b[i..i + j];
  }

  /** `strip()` leaves no whitespace at either end. */
  lemma {:induction false} StripEnds(b: string)
    ensures Strip(b) != [] ==> !IsSpace(Strip(b)[0]) && !IsSpace(Strip(b)[|Strip(b)| - 1])
  {
    var c := TrimStart(b);
    TrimStartFacts(b);
    TrimEndFacts(c);
    if Strip(b) != [] {
      TrimEndKeepsStart(c);
    }
  }

  /** The clean-up leaves no newline and no whitespace at either end, never lengthens its
      input, and keeps only characters of the input. */
  lemma NormalizeIsClean(s: string)
    ensures Clean(Normalize(s))
    ensures |Normalize(s)| <= |s|
    ensures forall k :: 0 <= k < |Normalize(s)| ==> Normalize(s)[k] in s
  {
    var a := DropNewlines(s);
    var b := HalveSpaces(a);
    var r := Strip(b);
    DropNewlinesFacts(s);
    HalveSpacesFacts(a);
    StripWithin(b);
    StripEnds(b);
    var i, j :| 0 <= i <= j <= |b| && r == b[i..j];
    forall k | 0 <= k < |r| ensures r[k] != '\n' && r[k] in s {
      assert r[k] == b[i + k];
      var m :| 0 <= m < |a| && a[m] == r[k];
      DropNewlinesKeeps(s, m);
    }
  }

  lemma {:induction false} DropNewlinesKeeps(s: string, m: nat)
    requires m < |DropNewlines(s)|
    ensures DropNewlines(s)[m] in s
  {
    if s[0] == '\n' {
      DropNewlinesKeeps(s[1..], m);
    } else if m > 0 {
      DropNewlinesKeeps(s[1..], m - 1);
    }
  }

  /** A run of k spaces becomes ceil(k/2) spaces. */
  lemma {:induction false} HalveRun(k: nat)
    ensures HalveSpaces(Spaces(k)) == Spaces((k + 1) / 2)
    decreases k
  {
    if k >= 2 {
      assert Spaces(k) == [' '] + ([' '] + Spaces(k - 2));
      assert Spaces(k)[2..] == Spaces(k - 2);
      HalveRun(k - 2);
      assert Spaces((k + 1) / 2) == [' '] + Spaces((k - 2 + 1) / 2);
    } else if k == 1 {
      assert Spaces(1) == [' '];
    }
  }

  /** ... and the same holds for a run inside a text: the run is halved and what follows the
      run's end is treated afresh. */
  lemma {:induction false} HalveRunBefore(k: nat, c: char, rest: string)
    requires c != ' '
    ensures HalveSpaces(Spaces(k) + [c] + rest) == Spaces((k + 1) / 2) + [c] + HalveSpaces(rest)
    decreases k
  {
    var t := Spaces(k) + [c] + rest;
    if k >= 2 {
      var u := Spaces(k - 2) + [c] + rest;
      SpacesTwo(k);
      assert t == [' ', ' '] + u;
      assert t[2..] == u;
      assert HalveSpaces(t) == [' '] + HalveSpaces(u);
      HalveRunBefore(k - 2, c, rest);
      assert Spaces((k + 1) / 2) == [' '] + Spaces((k - 2 + 1) / 2);
    } else if k == 1 {
      assert t == [' ', c] + rest;
      assert HalveSpaces(t) == [' '] + HalveSpaces(t[1..]);
      assert t[1..] == [c] + rest;
      assert ([c] + rest)[1..] == rest;
    } else {
      assert t == [c] + rest;
      assert t[1..] == rest;
    }
  }

  lemma SpacesTwo(k: nat)
    requires k >= 2
    ensures Spaces(k) == [' ', ' '] + Spaces(k - 2)
  {
    assert Spaces(k) == [' '] + Spaces(k - 1);
    assert Spaces(k - 1) == [' '] + Spaces(k - 2);
  }

  /** The clean-up is not idempotent: four spaces become two, and two become one. */
  lemma NotIdempotent()
    ensures Normalize("a    b") == "a  b"
    ensures Normalize(Normalize("a    b")) == "a b"
  {
    FourSpaces();
    TwoSpaces();
  }

  lemma FourSpaces()
    ensures Normalize("a    b") == "a  b"
  {
    assert DropNewlines("a    b") == "a    b";
    assert HalveSpaces("b") == "b";
    assert HalveSpaces("  b") == " b";
    assert HalveSpaces("    b") == "  b";
    assert HalveSpaces("a    b") == "a  b";
    assert !IsSpace('a') && !IsSpace('b');
    assert TrimStart("a  b") == "a  b";
    assert TrimEnd("a  b") == "a  b";
  }

  lemma TwoSpaces()
    ensures Normalize("a  b") == "a b"
  {
    assert DropNewlines("a  b") == "a  b";
    assert HalveSpaces("b") == "b";
    assert HalveSpaces("  b") == " b";
    assert HalveSpaces("a  b") == "a b";
    assert !IsSpace('a') && !IsSpace('b');
    assert TrimStart("a b") == "a b";
    assert TrimEnd("a b") == "a b";
  }

  predicate NoDoubleSpace(t: string)
  {
    forall k :: 0 <= k < |t| - 1 ==> !(t[k] == ' ' && t[k + 1] == ' ')
  }

  lemma {:induction false} DropNewlinesNone(s: string)
    requires forall k :: 0 <= k < |s| ==> s[k] != '\n'
    ensures DropNewlines(s) == s
  {
    if s != [] {
      DropNewlinesNone(s[1..]);
    }
  }

  lemma {:induction false} HalveSpacesNone(s: string)
    requires NoDoubleSpace(s)
    ensures HalveSpaces(s) == s
  {
    if s != [] {
      HalveSpacesNone(s[1..]);
    }
  }

  /** On a text that is already clean and has no double space the clean-up changes nothing. */
  lemma NormalizeFixesCleanText(t: string)
    requires Clean(t) && NoDoubleSpace(t)
    ensures Normalize(t) == t
  {
    DropNewlinesNone(t);
    HalveSpacesNone(t);
  }
}
