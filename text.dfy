/**
 * Byte strings as the voice-command processor sees them: ASCII lower-casing
 * (`::tolower` in the "C" locale), `std::string::find`, and the byte-wise
 * ordering that `std::map<std::string, …>` uses for its keys.
 *
 * A `char` here stands for one byte of a `std::string`; its code is the value
 * of that byte read as `unsigned char` (0..255), which is how
 * `std::char_traits<char>` compares characters.
 */
module Text {
  import opened Wrappers

  predicate IsUpper(c: char) {
    'A' <= c <= 'Z'
  }

  /** `::tolower` in the "C" locale: only 'A'..'Z' change, by 32. */
  function LowerChar(c: char): (r: char)
    ensures !IsUpper(r)
    ensures !IsUpper(c) ==> r == c
    ensures IsUpper(c) ==> 'a' <= r <= 'z' && r as int == c as int + 32
  {
    if IsUpper(c) then (c as int + 32) as char else c
  }

  /** `std::transform(s.begin(), s.end(), s.begin(), ::tolower)`. */
  function Lower(s: string): (r: string)
    ensures |r| == |s|
    ensures forall i :: 0 <= i < |s| ==> r[i] == LowerChar(s[i])
  {
    seq(|s|, i requires 0 <= i < |s| => LowerChar(s[i]))
  }

  /** Lower-casing leaves no upper-case ASCII letter and changes nothing else. */
  lemma LowerRemovesUpper(s: string)
    ensures forall i :: 0 <= i < |s| ==> !IsUpper(Lower(s)[i])
    ensures forall i :: 0 <= i < |s| && !IsUpper(s[i]) ==> Lower(s)[i] == s[i]
  {
  }

  lemma LowerIdempotent(s: string)
    ensures Lower(Lower(s)) == Lower(s)
  {
  }

  /** `needle` occurs in `hay` starting at position `i`. */
  ghost predicate OccursAt(hay: string, needle: string, i: int) {
    0 <= i && i + |needle| <= |hay| && hay[i..i + |needle|] == needle
  }

  /** `hay.find(needle, from)`: the leftmost occurrence at or after `from`. */
  function FindFrom(hay: string, needle: string, from: nat): (r: Option<nat>)
    ensures r.Some? ==> from <= r.value && OccursAt(hay, needle, r.value)
    ensures r.Some? ==> forall j :: from <= j < r.value ==> !OccursAt(hay, needle, j)
    ensures r.None? ==> forall j :: from <= j ==> !OccursAt(hay, needle, j)
    decreases |hay| - from
  {
    if from + |needle| > |hay| then None
    else if hay[from..from + |needle|] == needle then Some(from)
    else FindFrom(hay, needle, from + 1)
  }

  /** `hay.find(needle)`; `None` plays the part of `std::string::npos`. */
  function Find(hay: string, needle: string): (r: Option<nat>) {
    FindFrom(hay, needle, 0)
  }

  /** `find` succeeds exactly when the needle occurs somewhere. */
  lemma FindSucceedsIffOccurs(hay: string, needle: string)
    ensures Find(hay, needle).Some? <==> exists i :: OccursAt(hay, needle, i)
  {
    if Find(hay, needle).Some? {
      assert OccursAt(hay, needle, Find(hay, needle).value);
    }
  }

  /** `find("")` is 0 for every string. */
  lemma FindEmpty(hay: string)
    ensures Find(hay, "") == Some(0)
  {
    assert hay[0..0] == "";
  }

  /**
   * The test `lower(transcript).find(lower(phrase)) != npos`: the phrase occurs
   * in the transcript when both are lower-cased.
   */
  predicate Matches(phrase: string, transcript: string)
    ensures Matches(phrase, transcript) <==> exists i :: OccursAt(Lower(transcript), Lower(phrase), i)
  {
    Find(Lower(transcript), Lower(phrase)).Some?
  }

  /** Matching ignores ASCII case on both sides, and the empty phrase matches everything. */
  lemma MatchesIgnoresCase(phrase: string, phrase': string, transcript: string, transcript': string)
    requires Lower(phrase) == Lower(phrase') && Lower(transcript) == Lower(transcript')
    ensures Matches(phrase, transcript) == Matches(phrase', transcript')
    ensures Matches(Lower(phrase), Lower(transcript)) == Matches(phrase, transcript)
  {
    LowerIdempotent(phrase);
    LowerIdempotent(transcript);
  }

  /** A phrase occurring, case-folded, at some position matches. */
  lemma OccurrenceMatches(phrase: string, transcript: string, i: nat)
    requires OccursAt(Lower(transcript), Lower(phrase), i)
    ensures Matches(phrase, transcript)
  {
    FindSucceedsIffOccurs(Lower(transcript), Lower(phrase));
  }

  /** A phrase with a (case-folded) character the transcript lacks cannot match. */
  lemma MissingCharBlocksMatch(phrase: string, transcript: string, c: char)
    requires c in Lower(phrase) && c !in Lower(transcript)
    ensures !Matches(phrase, transcript)
  {
  }

  /** The same with the phrase raw: a lower-case letter of it suffices. */
  lemma AbsentLetterBlocksMatch(phrase: string, transcript: string, c: char)
    requires 'a' <= c <= 'z' && c in phrase && c !in Lower(transcript)
    ensures !Matches(phrase, transcript)
  {
    var i :| 0 <= i < |phrase| && phrase[i] == c;
    assert Lower(phrase)[i] == c;
    MissingCharBlocksMatch(phrase, transcript, c);
  }

  lemma EmptyPhraseMatches(transcript: string)
    ensures Matches("", transcript)
  {
    assert Lower("") == "";
    FindEmpty(Lower(transcript));
  }

  /**
   * `std::string` ordering (`std::less<std::string>`): lexicographic on the
   * bytes read as `unsigned char`, a proper prefix before the longer string.
   */
  predicate Less(a: string, b: string)
    ensures Less(a, b) ==> a != b
    decreases |a|
  {
    if |a| == 0 then |b| != 0
    else if |b| == 0 then false
    else if a[0] != b[0] then a[0] < b[0]
    else Less(a[1..], b[1..])
  }

  /** The usual textbook reading of lexicographic order. */
  ghost predicate LexicographicallyBefore(a: string, b: string) {
    (|a| < |b| && a == b[..|a|]) ||
    (exists k :: 0 <= k < |a| && k < |b| && a[..k] == b[..k] && a[k] < b[k])
  }

  lemma {:induction false} LessIsLexicographic(a: string, b: string)
    ensures Less(a, b) <==> LexicographicallyBefore(a, b)
    decreases |a|
  {
    if |a| == 0 {
    } else if |b| == 0 {
    } else if a[0] != b[0] {
      if a[0] < b[0] {
        assert a[..0] == b[..0];
      }
    } else {
      LessIsLexicographic(a[1..], b[1..]);
      if LexicographicallyBefore(a[1..], b[1..]) {
        if |a| - 1 < |b| - 1 && a[1..] == b[1..][..|a| - 1] {
          assert a == b[..|a|];
        } else {
          var k :| 0 <= k < |a| - 1 && k < |b| - 1 && a[1..][..k] == b[1..][..k] && a[1..][k] < b[1..][k];
          assert a[..k + 1] == [a[0]] + a[1..][..k];
          assert b[..k + 1] == [b[0]] + b[1..][..k];
        }
      }
      if LexicographicallyBefore(a, b) {
        if |a| < |b| && a == b[..|a|] {
          assert a[1..] == b[1..][..|a| - 1];
        } else {
          var k :| 0 <= k < |a| && k < |b| && a[..k] == b[..k] && a[k] < b[k];
          assert k > 0;
          assert a[1..][..k - 1] == a[..k][1..] == b[..k][1..] == b[1..][..k - 1];
          assert a[1..][k - 1] < b[1..][k - 1];
        }
      }
    }
  }

  lemma {:induction false} LessIrreflexive(a: string)
    ensures !Less(a, a)
    decreases |a|
  {
    if |a| > 0 {
      LessIrreflexive(a[1..]);
    }
  }

  lemma {:induction false} LessTransitive(a: string, b: string, c: string)
    requires Less(a, b) && Less(b, c)
    ensures Less(a, c)
    decreases |a|
  {
    if |a| > 0 && |b| > 0 && |c| > 0 && a[0] == b[0] && b[0] == c[0] {
      LessTransitive(a[1..], b[1..], c[1..]);
    }
  }

  /** Two distinct strings are ordered one way or the other, never both. */
  lemma {:induction false} LessTotal(a: string, b: string)
    ensures a == b || Less(a, b) || Less(b, a)
    ensures !(Less(a, b) && Less(b, a))
    decreases |a|
  {
    if |a| > 0 && |b| > 0 && a[0] == b[0] {
      LessTotal(a[1..], b[1..]);
      if a[1..] == b[1..] {
        assert a == [a[0]] + a[1..];
        assert b == [b[0]] + b[1..];
      }
    }
  }

  /** The empty string is the least string. */
  lemma EmptyIsLeast(a: string)
    requires a != ""
    ensures Less("", a)
  {
  }
}
