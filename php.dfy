/**
  The few PHP values and string built-ins the code generator relies on:
  nullable values, the scalars stored in PHP option arrays, `lcfirst`,
  `explode` with `end`, and `preg_split('/(?=[A-Z])/', ...)`, written out as an
  explicit ASCII tokenizer that cuts before every uppercase letter.
 */
module Php {

  /** A PHP value that may be `null`. */
  datatype Option<T> = None | Some(value: T)

  /** A scalar stored in a PHP array (an options or template-variables array). */
  datatype Value = Str(s: string) | Bool(b: bool) | Int(i: int) | Null

  /** `$x` where `$x` is `?int`. */
  function IntOrNull(x: Option<int>): Value
  {
    match x
    case Some(n) => Int(n)
    case None => Null
  }

  /** The characters matched by the character class `[A-Z]`. */
  predicate IsUpper(c: char)
  {
    'A' <= c <= 'Z'
  }

  predicate HasUpper(s: string)
  {
    exists i :: 0 <= i < |s| && IsUpper(s[i])
  }

  /** ASCII lower-casing of one character, as PHP's `lcfirst` does it. */
  function LowerChar(c: char): (r: char)
    ensures !IsUpper(r)
    ensures !IsUpper(c) ==> r == c
    ensures IsUpper(c) ==> 'a' <= r <= 'z' && r as int - 'a' as int == c as int - 'A' as int
  {
    if IsUpper(c) then (c as int - 'A' as int + 'a' as int) as char else c
  }

  /** `lcfirst($s)`: the string with its first character lower-cased. */
  function LcFirst(s: string): (r: string)
    ensures |r| == |s|
    ensures |s| > 0 ==> r[0] == LowerChar(s[0]) && r[1..] == s[1..]
  {
    if s == "" then "" else [LowerChar(s[0])] + s[1..]
  }

  // ---------------------------------------------------------------------------
  // explode / end

  /** `explode($sep, $s)` for a one-character separator: the pieces between separators. */
  function Explode(sep: char, s: string): (r: seq<string>)
    ensures |r| >= 1
    ensures forall i :: 0 <= i < |r| ==> sep !in r[i]
    decreases |s|
  {
    if s == "" then [""]
    else
      var rest := Explode(sep, s[1..]);
      if s[0] == sep then [""] + rest
      else [[s[0]] + rest[0]] + rest[1..]
  }

  /** `implode($sep, $pieces)`: the inverse of Explode. */
  function Implode(sep: char, pieces: seq<string>): string
    requires |pieces| >= 1
    decreases |pieces|
  {
    if |pieces| == 1 then pieces[0] else pieces[0] + [sep] + Implode(sep, pieces[1..])
  }

  /** `end($pieces)`: the last element of a non-empty array. */
  function End(pieces: seq<string>): string
    requires |pieces| >= 1
  {
    pieces[|pieces| - 1]
  }

  /** Joining the pieces of a string with the separator gives the string back. */
  lemma {:induction false} ImplodeExplode(sep: char, s: string)
    ensures Implode(sep, Explode(sep, s)) == s
    decreases |s|
  {
    if s != "" {
      var rest := Explode(sep, s[1..]);
      ImplodeExplode(sep, s[1..]);
      if s[0] != sep && |rest| > 1 {
        var r := Explode(sep, s);
        assert r[1..] == rest[1..];
        calc {
          Implode(sep, r);
          r[0] + [sep] + Implode(sep, rest[1..]);
          [s[0]] + (rest[0] + [sep] + Implode(sep, rest[1..]));
          [s[0]] + Implode(sep, rest);
          [s[0]] + s[1..];
        }
      }
      assert s == [s[0]] + s[1..];
    }
  }

  lemma {:induction false} ExplodeWithoutSeparator(sep: char, s: string)
    requires sep !in s
    ensures Explode(sep, s) == [s]
    decreases |s|
  {
    if s != "" {
      ExplodeWithoutSeparator(sep, s[1..]);
      assert s == [s[0]] + s[1..];
    }
  }

  /** A separator-free first piece followed by a separator is cut off whole. */
  lemma {:induction false} ExplodeFirstPiece(sep: char, a: string, b: string)
    requires sep !in a
    ensures Explode(sep, a + [sep] + b) == [a] + Explode(sep, b)
    decreases |a|
  {
    var s := a + [sep] + b;
    if a == "" {
      assert s[1..] == b;
    } else {
      assert s[1..] == a[1..] + [sep] + b;
      ExplodeFirstPiece(sep, a[1..], b);
      assert a == [a[0]] + a[1..];
    }
  }

  /** Splitting separator-free pieces joined by the separator gives the pieces back. */
  lemma {:induction false} ExplodeImplode(sep: char, pieces: seq<string>)
    requires |pieces| >= 1
    requires forall i :: 0 <= i < |pieces| ==> sep !in pieces[i]
    ensures Explode(sep, Implode(sep, pieces)) == pieces
    decreases |pieces|
  {
    if |pieces| == 1 {
      ExplodeWithoutSeparator(sep, pieces[0]);
    } else {
      ExplodeImplode(sep, pieces[1..]);
      ExplodeFirstPiece(sep, pieces[0], Implode(sep, pieces[1..]));
      assert pieces == [pieces[0]] + pieces[1..];
    }
  }

  /** Appending separator-free text extends the last piece and adds no piece. */
  lemma {:induction false} ExplodeAppend(sep: char, s: string, t: string)
    requires sep !in t
    ensures |Explode(sep, s + t)| == |Explode(sep, s)|
    ensures End(Explode(sep, s + t)) == End(Explode(sep, s)) + t
    decreases |s|
  {
    if s == "" {
      assert s + t == t;
      ExplodeWithoutSeparator(sep, t);
    } else {
      assert (s + t)[1..] == s[1..] + t;
      ExplodeAppend(sep, s[1..], t);
    }
  }

  /** A string that ends in the separator has an empty last piece. */
  lemma {:induction false} ExplodeTrailingSeparator(sep: char, s: string)
    requires |s| > 0 && s[|s| - 1] == sep
    ensures |Explode(sep, s)| >= 2
    ensures End(Explode(sep, s)) == ""
    decreases |s|
  {
    if |s| > 1 {
      ExplodeTrailingSeparator(sep, s[1..]);
    } else {
      assert s[1..] == "";
    }
  }

  /** The last piece of `prefix + name` is `name` when the prefix ends in the separator. */
  lemma LastPieceAfterSeparator(sep: char, prefix: string, name: string)
    requires |prefix| > 0 && prefix[|prefix| - 1] == sep
    requires sep !in name
    ensures End(Explode(sep, prefix + name)) == name
  {
    ExplodeTrailingSeparator(sep, prefix);
    ExplodeAppend(sep, prefix, name);
  }

  // ---------------------------------------------------------------------------
  // preg_split('/(?=[A-Z])/', s)

  /**
    `preg_split('/(?=[A-Z])/', $s)`: the string cut in front of every uppercase
    letter. A string that starts with a capital yields a leading empty piece
    ("UserProfile" gives "", "User", "Profile"); the empty string gives one
    empty piece. The first piece holds no capital; every later piece is one
    capital followed by non-capitals.
   */
  function SplitBeforeUpper(s: string): (r: seq<string>)
    ensures |r| >= 1
    ensures forall k :: 0 <= k < |r[0]| ==> !IsUpper(r[0][k])
    ensures forall i :: 1 <= i < |r| ==> |r[i]| >= 1 && IsUpper(r[i][0])
    ensures forall i, k :: 1 <= i < |r| && 1 <= k < |r[i]| ==> !IsUpper(r[i][k])
    decreases |s|
  {
    if s == "" then [""]
    else
      var rest := SplitBeforeUpper(s[1..]);
      var word := [s[0]] + rest[0];
      assert forall k :: 1 <= k < |word| ==> word[k] == rest[0][k - 1];
      if IsUpper(s[0]) then ["", word] + rest[1..]
      else [word] + rest[1..]
  }

  /** Concatenation of a sequence of strings. */
  function Concat(pieces: seq<string>): string
    decreases |pieces|
  {
    if pieces == [] then "" else pieces[0] + Concat(pieces[1..])
  }

  /** The pieces put back together give the original string. */
  lemma {:induction false} ConcatSplitBeforeUpper(s: string)
    ensures Concat(SplitBeforeUpper(s)) == s
    decreases |s|
  {
    if s != "" {
      var rest := SplitBeforeUpper(s[1..]);
      ConcatSplitBeforeUpper(s[1..]);
      var r := SplitBeforeUpper(s);
      assert Concat(rest) == rest[0] + Concat(rest[1..]);
      if IsUpper(s[0]) {
        assert r[1..] == [[s[0]] + rest[0]] + rest[1..];
        assert r[1..][1..] == rest[1..];
      } else {
        assert r[1..] == rest[1..];
      }
      assert s == [s[0]] + s[1..];
    }
  }

  /** There is a second piece exactly when the string holds a capital. */
  lemma {:induction false} SplitHasSecondPiece(s: string)
    ensures |SplitBeforeUpper(s)| >= 2 <==> HasUpper(s)
    decreases |s|
  {
    if s != "" {
      SplitHasSecondPiece(s[1..]);
      if HasUpper(s[1..]) {
        var i :| 0 <= i < |s[1..]| && IsUpper(s[1..][i]);
        assert IsUpper(s[i + 1]);
      }
      if HasUpper(s) && !IsUpper(s[0]) {
        var i :| 0 <= i < |s| && IsUpper(s[i]);
        assert IsUpper(s[1..][i - 1]);
      }
    }
  }

  /** Index of the first capital at or after `from`, or |s| when there is none. */
  function FirstUpper(s: string, from: nat): (r: nat)
    requires from <= |s|
    ensures from <= r <= |s|
    ensures r < |s| ==> IsUpper(s[r])
    ensures forall k :: from <= k < r ==> !IsUpper(s[k])
    decreases |s| - from
  {
    if from == |s| then |s|
    else if IsUpper(s[from]) then from
    else FirstUpper(s, from + 1)
  }

  lemma {:induction false} FirstUpperShift(s: string, from: nat)
    requires |s| > 0 && from < |s|
    ensures FirstUpper(s, from + 1) == 1 + FirstUpper(s[1..], from)
    decreases |s| - from
  {
    if from + 1 < |s| && !IsUpper(s[from + 1]) {
      FirstUpperShift(s, from + 1);
    }
  }

  /** Text appended after a capital already found does not move the first capital. */
  lemma {:induction false} FirstUpperAppend(a: string, b: string, from: nat)
    requires from <= |a|
    requires FirstUpper(a, from) < |a| || (|b| > 0 && IsUpper(b[0]))
    ensures FirstUpper(a + b, from) == FirstUpper(a, from)
    decreases |a| - from
  {
    if from < |a| && !IsUpper(a[from]) {
      FirstUpperAppend(a, b, from + 1);
    }
  }

  /** The first piece runs up to the first capital. */
  lemma {:induction false} SplitBeforeUpperFirstPiece(s: string)
    ensures SplitBeforeUpper(s)[0] == s[..FirstUpper(s, 0)]
    decreases |s|
  {
    if s != "" && !IsUpper(s[0]) {
      var t := s[1..];
      SplitBeforeUpperFirstPiece(t);
      FirstUpperShift(s, 0);
      calc {
        SplitBeforeUpper(s)[0];
        [s[0]] + SplitBeforeUpper(t)[0];
        [s[0]] + t[..FirstUpper(t, 0)];
        s[..FirstUpper(s, 0)];
      }
    }
  }

  /**
    The second piece, which exists when the string holds a capital, runs from
    the first capital up to the next one (or to the end of the string).
   */
  lemma {:induction false} SplitBeforeUpperSecondPiece(s: string)
    requires HasUpper(s)
    ensures |SplitBeforeUpper(s)| >= 2
    ensures SplitBeforeUpper(s)[1] == s[FirstUpper(s, 0)..FirstUpper(s, FirstUpper(s, 0) + 1)]
    decreases |s|
  {
    SplitHasSecondPiece(s);
    if IsUpper(s[0]) {
      SecondPieceAtHead(s);
    } else {
      assert HasUpper(s[1..]) by {
        var j :| 0 <= j < |s| && IsUpper(s[j]);
        assert IsUpper(s[1..][j - 1]);
      }
      SplitBeforeUpperSecondPiece(s[1..]);
      SecondPieceAfterHead(s);
    }
  }

  /** A string that starts with a capital has that capital's word as its second piece. */
  lemma SecondPieceAtHead(s: string)
    requires |s| > 0 && IsUpper(s[0])
    ensures |SplitBeforeUpper(s)| >= 2
    ensures SplitBeforeUpper(s)[1] == s[..FirstUpper(s, 1)]
  {
    var t := s[1..];
    SplitBeforeUpperFirstPiece(t);
    FirstUpperShift(s, 0);
    assert SplitBeforeUpper(s)[1] == [s[0]] + SplitBeforeUpper(t)[0];
    assert [s[0]] + t[..FirstUpper(t, 0)] == s[..1 + FirstUpper(t, 0)];
  }

  /** A leading non-capital leaves the second piece where the tail's second piece is. */
  lemma SecondPieceAfterHead(s: string)
    requires |s| > 0 && !IsUpper(s[0])
    requires |SplitBeforeUpper(s[1..])| >= 2 && FirstUpper(s[1..], 0) < |s[1..]|
    requires SplitBeforeUpper(s[1..])[1]
      == s[1..][FirstUpper(s[1..], 0)..FirstUpper(s[1..], FirstUpper(s[1..], 0) + 1)]
    ensures |SplitBeforeUpper(s)| >= 2
    ensures SplitBeforeUpper(s)[1] == s[FirstUpper(s, 0)..FirstUpper(s, FirstUpper(s, 0) + 1)]
  {
    var t := s[1..];
    var i := FirstUpper(t, 0);
    FirstUpperShift(s, 0);
    FirstUpperShift(s, i + 1);
    SplitLowerHead(s);
    SliceOfTail(s, i + 1, FirstUpper(s, i + 2));
  }

  /** A leading non-capital joins the first piece; the later pieces are the tail's. */
  lemma SplitLowerHead(s: string)
    requires |s| > 0 && !IsUpper(s[0])
    ensures SplitBeforeUpper(s)[1..] == SplitBeforeUpper(s[1..])[1..]
  {
  }

  lemma SliceOfTail(s: string, lo: nat, hi: nat)
    requires 1 <= lo <= hi <= |s|
    ensures s[1..][lo - 1..hi - 1] == s[lo..hi]
  {
  }

  /** Worked example: the second piece of "UserProfile" is its first word. */
  lemma SplitUserProfile()
    ensures SplitBeforeUpper("UserProfile")[1] == "User"
  {
  }
}
