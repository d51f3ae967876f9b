/** The string operations behind the plugin: the anchored `www.` strip done
    by `preg_replace('/^www\./', '', $host)` and PHP's `str_replace`. */
module Strings {

  /** The literal, case-sensitive prefix the domain derivation strips. */
  const WwwPrefix: string := "www."

  /** Removes one leading `www.` from a host name; any other host is returned
      as it is. */
  function StripWww(host: string): (r: string)
    ensures WwwPrefix <= host ==> WwwPrefix + r == host
    ensures !(WwwPrefix <= host) ==> r == host
    ensures |r| <= |host|
  {
    if WwwPrefix <= host then host[|WwwPrefix|..] else host
  }

  /** Exactly one prefix is stripped, whatever follows it. */
  lemma StripWwwOnce(host: string)
    ensures StripWww(WwwPrefix + host) == host
  {
    assert (WwwPrefix + host)[|WwwPrefix|..] == host;
  }

  /** True when `pat` occurs somewhere in `s`. */
  predicate Occurs(pat: string, s: string)
    decreases |s|
  {
    pat <= s || (s != [] && Occurs(pat, s[1..]))
  }

  /** Replaces the occurrences of `pat` in `s` by `rep` that a left-to-right
      scan finds, never matching inside a piece already replaced. A string in
      which `pat` does not occur is not changed. */
  function ReplaceAll(s: string, pat: string, rep: string): (r: string)
    requires pat != []
    ensures !Occurs(pat, s) ==> r == s
    decreases |s|
  {
    if s == [] then []
    else if pat <= s then rep + ReplaceAll(s[|pat|..], pat, rep)
    else [s[0]] + ReplaceAll(s[1..], pat, rep)
  }

  /** The pieces of `s` between the occurrences of `pat` that a left-to-right
      scan finds, each match ending where the scan resumes (so matches never
      overlap): PHP's `explode($pat, $s)`. */
  function Split(s: string, pat: string): (pieces: seq<string>)
    requires pat != []
    ensures |pieces| >= 1
    decreases |s|
  {
    if s == [] then [[]]
    else if pat <= s then [[]] + Split(s[|pat|..], pat)
    else
      var t := Split(s[1..], pat);
      [[s[0]] + t[0]] + t[1..]
  }

  /** The pieces glued together with `sep` between each two: PHP's
      `implode($sep, $pieces)`. */
  function Join(pieces: seq<string>, sep: string): (r: string)
    requires |pieces| >= 1
  {
    if |pieces| == 1 then pieces[0] else pieces[0] + sep + Join(pieces[1..], sep)
  }

  /** Splitting at `pat` and joining with `pat` gives back the input. */
  lemma {:induction false} JoinSplit(s: string, pat: string)
    requires pat != []
    ensures Join(Split(s, pat), pat) == s
    decreases |s|
  {
    if s == [] {
    } else if pat <= s {
      var rest := s[|pat|..];
      JoinSplit(rest, pat);
      var t := Split(rest, pat);
      assert Split(s, pat) == [[]] + t;
      JoinEmptyHead(t, pat);
      assert s == pat + rest;
    } else {
      var t := Split(s[1..], pat);
      JoinSplit(s[1..], pat);
      assert Split(s, pat) == [[s[0]] + t[0]] + t[1..];
      JoinConsHead(s[0], t, pat);
      assert s == [s[0]] + s[1..];
    }
  }

  /** An empty first piece contributes only the separator. */
  lemma JoinEmptyHead(t: seq<string>, sep: string)
    requires |t| >= 1
    ensures Join([[]] + t, sep) == sep + Join(t, sep)
  {
    var pieces := [[]] + t;
    assert pieces[1..] == t;
  }

  /** Putting one more character in front of the first piece puts it in
      front of the joined string. */
  lemma JoinConsHead(c: char, t: seq<string>, sep: string)
    requires |t| >= 1
    ensures Join([[c] + t[0]] + t[1..], sep) == [c] + Join(t, sep)
  {
    var pieces := [[c] + t[0]] + t[1..];
    if |t| > 1 {
      assert pieces[1..] == t[1..];
    }
  }

  /** No piece of a split contains the separator. (With a pattern that
      overlaps itself, such as "aa" in "aaa", an occurrence may straddle a
      cut; SplitFindsLeftmost says which cuts the scan makes.) */
  lemma {:induction false} SplitPiecesAreFree(s: string, pat: string)
    requires pat != []
    ensures forall i :: 0 <= i < |Split(s, pat)| ==> !Occurs(pat, Split(s, pat)[i])
    decreases |s|
  {
    if s == [] {
    } else if pat <= s {
      var rest := s[|pat|..];
      SplitPiecesAreFree(rest, pat);
      var t := Split(rest, pat);
      assert !Occurs(pat, []);
      forall i | 0 <= i < |Split(s, pat)|
        ensures !Occurs(pat, Split(s, pat)[i])
      {
        if i > 0 {
          assert Split(s, pat)[i] == t[i - 1];
        }
      }
    } else {
      var t := Split(s[1..], pat);
      SplitPiecesAreFree(s[1..], pat);
      SplitHeadIsPrefix(s[1..], pat);
      var head := [s[0]] + t[0];
      assert head[1..] == t[0];
      assert head <= s by {
        assert s == [s[0]] + s[1..];
      }
      assert !(pat <= head);
      assert !Occurs(pat, head);
      forall i | 0 <= i < |Split(s, pat)|
        ensures !Occurs(pat, Split(s, pat)[i])
      {
        if i > 0 {
          assert Split(s, pat)[i] == t[i];
        }
      }
    }
  }

  /** The first piece of a split is a prefix of the input. */
  lemma {:induction false} SplitHeadIsPrefix(s: string, pat: string)
    requires pat != []
    ensures Split(s, pat)[0] <= s
    decreases |s|
  {
    if s != [] && !(pat <= s) {
      SplitHeadIsPrefix(s[1..], pat);
      assert s == [s[0]] + s[1..];
    }
  }

  /** The scan behind Split is leftmost: `pat` starts at no position of the
      first piece. */
  lemma {:induction false} SplitFindsLeftmost(s: string, pat: string)
    requires pat != []
    ensures Split(s, pat)[0] <= s
    ensures forall i :: 0 <= i < |Split(s, pat)[0]| ==> !(pat <= s[i..])
    decreases |s|
  {
    SplitHeadIsPrefix(s, pat);
    if s != [] && !(pat <= s) {
      var t := Split(s[1..], pat);
      SplitFindsLeftmost(s[1..], pat);
      var head := [s[0]] + t[0];
      assert Split(s, pat)[0] == head;
      forall i | 0 <= i < |head|
        ensures !(pat <= s[i..])
      {
        if i == 0 {
          assert s[0..] == s;
        } else {
          assert i - 1 < |t[0]|;
          assert s[i..] == s[1..][i - 1..];
        }
      }
    }
  }

  /** The scan behind Split does not overlap: the first piece is the whole
      string when there is a single piece; otherwise `pat` starts right after
      the first piece and the remaining pieces are the split of what follows
      that match. */
  lemma {:induction false} SplitResumesAfterMatch(s: string, pat: string)
    requires pat != []
    ensures var pieces := Split(s, pat);
            var head := pieces[0];
            && (|pieces| == 1 ==> head == s)
            && (|pieces| > 1 ==> |head| + |pat| <= |s| && pat <= s[|head|..]
                                 && pieces[1..] == Split(s[|head| + |pat|..], pat))
    decreases |s|
  {
    if s == [] {
    } else if pat <= s {
      var rest := s[|pat|..];
      assert Split(s, pat) == [[]] + Split(rest, pat);
      assert s[0..] == s;
    } else {
      var t := Split(s[1..], pat);
      SplitResumesAfterMatch(s[1..], pat);
      var head := [s[0]] + t[0];
      assert Split(s, pat) == [head] + t[1..];
      if |t| == 1 {
        assert head == [s[0]] + s[1..] == s;
      } else {
        assert s[|head|..] == s[1..][|t[0]|..];
        assert s[|head| + |pat|..] == s[1..][|t[0]| + |pat|..];
      }
    }
  }

  /** The replace-all is the split joined with the replacement, as
      `str_replace` is `implode($rep, explode($pat, $s))`. */
  lemma {:induction false} ReplaceAllIsJoinOfSplit(s: string, pat: string, rep: string)
    requires pat != []
    ensures ReplaceAll(s, pat, rep) == Join(Split(s, pat), rep)
    decreases |s|
  {
    if s == [] {
    } else if pat <= s {
      var rest := s[|pat|..];
      ReplaceAllIsJoinOfSplit(rest, pat, rep);
      var t := Split(rest, pat);
      assert ([[]] + t)[1..] == t;
    } else {
      var t := Split(s[1..], pat);
      ReplaceAllIsJoinOfSplit(s[1..], pat, rep);
      JoinConsHead(s[0], t, rep);
    }
  }

  /** A string shorter than the pattern cannot contain it. */
  lemma {:induction false} ShortHasNoOccurrence(pat: string, s: string)
    requires |s| < |pat|
    ensures !Occurs(pat, s)
    decreases |s|
  {
    if s != [] {
      ShortHasNoOccurrence(pat, s[1..]);
    }
  }

  /** A leading part `x` at none of whose positions `pat` starts is copied
      through unchanged. */
  lemma {:induction false} ReplaceAllCopiesPrefix(x: string, y: string, pat: string, rep: string)
    requires pat != []
    requires forall i :: 0 <= i < |x| ==> !(pat <= x[i..] + y)
    ensures ReplaceAll(x + y, pat, rep) == x + ReplaceAll(y, pat, rep)
    decreases |x|
  {
    if x == [] {
      assert x + y == y;
    } else {
      assert x[0..] + y == x + y;
      assert !(pat <= x + y);
      assert (x + y)[0] == x[0];
      assert (x + y)[1..] == x[1..] + y;
      forall i | 0 <= i < |x[1..]|
        ensures !(pat <= x[1..][i..] + y)
      {
        assert x[1..][i..] == x[i + 1..];
      }
      ReplaceAllCopiesPrefix(x[1..], y, pat, rep);
      calc {
        ReplaceAll(x + y, pat, rep);
        [x[0]] + ReplaceAll(x[1..] + y, pat, rep);
        [x[0]] + (x[1..] + ReplaceAll(y, pat, rep));
        { assert x == [x[0]] + x[1..]; }
        x + ReplaceAll(y, pat, rep);
      }
    }
  }

  /** Replacing a pattern by itself changes nothing. */
  lemma ReplaceAllBySelf(s: string, pat: string)
    requires pat != []
    ensures ReplaceAll(s, pat, pat) == s
  {
    ReplaceAllIsJoinOfSplit(s, pat, pat);
    JoinSplit(s, pat);
  }

  /** PHP's `str_replace($search, $replace, $subject)` for one string search:
      an empty search leaves the subject as it is; otherwise the subject is
      cut at the occurrences of the search found left to right without
      overlap, and the pieces are glued back with the replacement. */
  function StrReplace(search: string, replace: string, subject: string): (r: string)
    ensures search == [] ==> r == subject
    ensures search != [] ==> r == Join(Split(subject, search), replace)
    ensures !Occurs(search, subject) ==> r == subject
  {
    if search == [] then subject
    else
      ReplaceAllIsJoinOfSplit(subject, search, replace);
      ReplaceAll(subject, search, replace)
  }
}
