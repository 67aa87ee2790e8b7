/**
 * The few Python `str` operations the two scripts rely on, stated over
 * `seq<char>`: `startswith`, `split(sep)` with a one-character separator,
 * and `split()` with no argument (split on runs of
 * whitespace).
 */
module PyStr {

  /** Python's `str.isspace` on one character: the separators of `str.split()`. */
  predicate IsSpace(c: char)
  {
    || c == ' '
    || '\t' <= c <= '\r'
    || '\U{1C}' <= c <= '\U{1F}'
    || c == '\U{85}'
    || c == '\U{A0}'
    || c == '\U{1680}'
    || '\U{2000}' <= c <= '\U{200A}'
    || c == '\U{2028}'
    || c == '\U{2029}'
    || c == '\U{202F}'
    || c == '\U{205F}'
    || c == '\U{3000}'
  }

  /** No character of `t` is whitespace. */
  predicate NoSpace(t: string)
  {
    forall c :: c in t ==> !IsSpace(c)
  }

  /** `s.startswith(prefix)` */
  predicate StartsWith(s: string, prefix: string)
  {
    |prefix| <= |s| && s[..|prefix|] == prefix
  }

  // ---------------------------------------------------------------------
  // split(sep) and join
  // ---------------------------------------------------------------------

  /**
   * `s.split(sep)`: the pieces between consecutive separators, empty pieces
   * included, so there is always one more piece than there are separators.
   */
  function Split(s: string, sep: char): (parts: seq<string>)
    ensures |parts| >= 1
    ensures forall i :: 0 <= i < |parts| ==> sep !in parts[i]
    decreases |s|
  {
    if s == [] then [""]
    else if s[0] == sep then [""] + Split(s[1..], sep)
    else
      var rest := Split(s[1..], sep);
      [[s[0]] + rest[0]] + rest[1..]
  }

  /** The first character and the remainder of a non-empty string followed by more text. */
  lemma HeadTailOfAppend(a: string, c: string)
    requires a != []
    ensures (a + c)[0] == a[0] && (a + c)[1..] == a[1..] + c
  {
  }

  lemma AppendAssoc(a: string, x: string, b: string)
    ensures a + x + b == a + (x + b)
  {
  }

  /** Prefixing the first piece commutes with appending more pieces. */
  lemma ExtendFirstPiece(x: string, pieces: seq<string>, more: seq<string>)
    requires |pieces| >= 1
    ensures ([x + pieces[0]] + pieces[1..]) + more == [x + (pieces + more)[0]] + (pieces + more)[1..]
  {
    assert (pieces + more)[1..] == pieces[1..] + more;
  }

  /** `sep.join(parts)` for a non-empty list of parts. The scripts never call it: it is here to state that `split(sep)` loses nothing. */
  function JoinWith(parts: seq<string>, sep: char): string
    requires |parts| >= 1
    decreases |parts|
  {
    if |parts| == 1 then parts[0] else parts[0] + [sep] + JoinWith(parts[1..], sep)
  }

  /** Joining the pieces back with the separator gives the original string. */
  lemma {:induction false} JoinSplit(s: string, sep: char)
    ensures JoinWith(Split(s, sep), sep) == s
    decreases |s|
  {
    if s == [] {
    } else if s[0] == sep {
      JoinSplit(s[1..], sep);
      var rest := Split(s[1..], sep);
      assert Split(s, sep) == [""] + rest;
      assert ([""] + rest)[1..] == rest;
      assert s == [sep] + s[1..];
    } else {
      JoinSplit(s[1..], sep);
      var rest := Split(s[1..], sep);
      var parts := [[s[0]] + rest[0]] + rest[1..];
      assert Split(s, sep) == parts;
      if |rest| == 1 {
        assert JoinWith(parts, sep) == [s[0]] + rest[0];
        assert s == [s[0]] + s[1..];
      } else {
        assert parts[1..] == rest[1..];
        assert JoinWith(rest, sep) == rest[0] + [sep] + JoinWith(rest[1..], sep);
        assert JoinWith(parts, sep) == [s[0]] + rest[0] + [sep] + JoinWith(rest[1..], sep);
        assert s == [s[0]] + s[1..];
      }
    }
  }

  /** A string without the separator splits into itself alone. */
  lemma {:induction false} SplitWithoutSep(s: string, sep: char)
    requires sep !in s
    ensures Split(s, sep) == [s]
    decreases |s|
  {
    if s != [] {
      SplitWithoutSep(s[1..], sep);
      assert s == [s[0]] + s[1..];
    }
  }

  /** Splitting at one separator splits the two sides independently. */
  lemma {:induction false} SplitAround(a: string, sep: char, b: string)
    ensures Split(a + [sep] + b, sep) == Split(a, sep) + Split(b, sep)
    decreases |a|
  {
    var c := [sep] + b;
    AppendAssoc(a, [sep], b);
    if a == [] {
      assert a + c == c;
      HeadTailOfAppend([sep], b);
    } else {
      HeadTailOfAppend(a, c);
      SplitAround(a[1..], sep, b);
      AppendAssoc(a[1..], [sep], b);
      if a[0] != sep {
        ExtendFirstPiece([a[0]], Split(a[1..], sep), Split(b, sep));
      }
    }
  }

  /** Splitting a join of separator-free pieces gives the pieces back. */
  lemma {:induction false} SplitJoin(parts: seq<string>, sep: char)
    requires |parts| >= 1
    requires forall i :: 0 <= i < |parts| ==> sep !in parts[i]
    ensures Split(JoinWith(parts, sep), sep) == parts
    decreases |parts|
  {
    SplitWithoutSep(parts[0], sep);
    if |parts| > 1 {
      SplitJoin(parts[1..], sep);
      SplitAround(parts[0], sep, JoinWith(parts[1..], sep));
      assert parts == [parts[0]] + parts[1..];
    }
  }

  /**
   * The first piece is everything before the first separator: a prefix of
   * `s` that is either all of `s` or is followed by the separator.
   */
  lemma {:induction false} SplitHead(s: string, sep: char)
    ensures var head := Split(s, sep)[0];
      && |head| <= |s| && s[..|head|] == head
      && (|head| == |s| || s[|head|] == sep)
    decreases |s|
  {
    if s != [] && s[0] != sep {
      SplitHead(s[1..], sep);
    }
  }

  // ---------------------------------------------------------------------
  // split() on whitespace
  // ---------------------------------------------------------------------

  /** Length of the run of non-whitespace characters that starts `s`. */
  function TokenLength(s: string): (n: nat)
    ensures n <= |s| && NoSpace(s[..n])
    ensures n == |s| || IsSpace(s[n])
    decreases |s|
  {
    if s == [] || IsSpace(s[0]) then 0 else
      var m := TokenLength(s[1..]);
      assert s[..1 + m][1..] == s[1..][..m];
      1 + m
  }

  /**
   * `s.split()`: the maximal runs of non-whitespace characters of `s`, in
   * order; leading, trailing and repeated whitespace produce no empty tokens.
   */
  function Fields(s: string): (tokens: seq<string>)
    ensures forall i :: 0 <= i < |tokens| ==> tokens[i] != [] && NoSpace(tokens[i])
    decreases |s|
  {
    if s == [] then []
    else if IsSpace(s[0]) then Fields(s[1..])
    else
      var n := TokenLength(s);
      [s[..n]] + Fields(s[n..])
  }

  /** The non-whitespace characters of `s`, in order. */
  function Squeeze(s: string): string
    decreases |s|
  {
    if s == [] then [] else (if IsSpace(s[0]) then [] else [s[0]]) + Squeeze(s[1..])
  }

  /** Concatenation of a list of strings. */
  function Concat(parts: seq<string>): string
    decreases |parts|
  {
    if parts == [] then [] else parts[0] + Concat(parts[1..])
  }

  lemma {:induction false} SqueezeAppend(a: string, b: string)
    ensures Squeeze(a + b) == Squeeze(a) + Squeeze(b)
    decreases |a|
  {
    if a == [] {
      assert a + b == b;
    } else {
      assert (a + b)[0] == a[0];
      assert (a + b)[1..] == a[1..] + b;
      SqueezeAppend(a[1..], b);
    }
  }

  lemma {:induction false} SqueezeNoSpace(t: string)
    requires NoSpace(t)
    ensures Squeeze(t) == t
    decreases |t|
  {
    if t != [] {
      SqueezeNoSpace(t[1..]);
      assert t == [t[0]] + t[1..];
    }
  }

  /** `split()` drops exactly the whitespace: the tokens, run together, are the other characters. */
  lemma {:induction false} FieldsKeepText(s: string)
    ensures Concat(Fields(s)) == Squeeze(s)
    decreases |s|
  {
    if s != [] {
      if IsSpace(s[0]) {
        FieldsKeepText(s[1..]);
      } else {
        var n := TokenLength(s);
        FieldsKeepText(s[n..]);
        assert s == s[..n] + s[n..];
        SqueezeAppend(s[..n], s[n..]);
        SqueezeNoSpace(s[..n]);
        assert ([s[..n]] + Fields(s[n..]))[1..] == Fields(s[n..]);
      }
    }
  }

  lemma {:induction false} TokenLengthOf(t: string, rest: string)
    requires NoSpace(t)
    requires rest == [] || IsSpace(rest[0])
    ensures TokenLength(t + rest) == |t|
    decreases |t|
  {
    if t != [] {
      assert (t + rest)[1..] == t[1..] + rest;
      TokenLengthOf(t[1..], rest);
    }
  }

  /** A leading token followed by whitespace or nothing is the first field. */
  lemma FieldsTokenThen(t: string, rest: string)
    requires t != [] && NoSpace(t)
    requires rest == [] || IsSpace(rest[0])
    ensures Fields(t + rest) == [t] + Fields(rest)
  {
    TokenLengthOf(t, rest);
    assert (t + rest)[..|t|] == t;
    assert (t + rest)[|t|..] == rest;
  }

  /**
   * `split()` inverts joining non-empty, whitespace-free tokens with single
   * spaces, also when the line starts with an indent.
   */
  lemma {:induction false} FieldsOfJoin(tokens: seq<string>)
    requires |tokens| >= 1
    requires forall i :: 0 <= i < |tokens| ==> tokens[i] != [] && NoSpace(tokens[i])
    ensures Fields(JoinWith(tokens, ' ')) == tokens
    ensures Fields(" " + JoinWith(tokens, ' ')) == tokens
    decreases |tokens|
  {
    var line := JoinWith(tokens, ' ');
    assert (" " + line)[1..] == line;
    if |tokens| == 1 {
      FieldsTokenThen(tokens[0], []);
      assert tokens[0] + [] == tokens[0];
    } else {
      var tail := JoinWith(tokens[1..], ' ');
      FieldsOfJoin(tokens[1..]);
      assert line == tokens[0] + (" " + tail);
      FieldsTokenThen(tokens[0], " " + tail);
      assert tokens == [tokens[0]] + tokens[1..];
    }
  }

  /** Appending after a split point: `a + c` is the part of `a` before `m`, then the rest of `a` and `c`. */
  lemma AppendAfterSlice(a: string, c: string, m: nat)
    requires m <= |a|
    ensures a + c == a[..m] + (a[m..] + c)
  {
    assert a == a[..m] + a[m..];
  }

  /** Text that starts with whitespace, appended after a leading token, leaves the token alone. */
  lemma FieldsFirstTokenAppend(a: string, c: string)
    requires a != [] && !IsSpace(a[0])
    requires c != [] && IsSpace(c[0])
    ensures var m := TokenLength(a);
      && 0 < m <= |a|
      && Fields(a) == [a[..m]] + Fields(a[m..])
      && Fields(a + c) == [a[..m]] + Fields(a[m..] + c)
  {
    var m := TokenLength(a);
    var t, rest := a[..m], a[m..] + c;
    AppendAfterSlice(a, c, m);
    assert rest[0] == if m < |a| then a[m] else c[0];
    TokenLengthOf(t, rest);
    FieldsTokenThen(t, rest);
  }

  /**
   * `split()` breaks at every whitespace character: splitting around one
   * splits the two sides independently, so the token boundaries are fixed.
   */
  lemma {:induction false} FieldsAround(a: string, w: char, b: string)
    requires IsSpace(w)
    ensures Fields(a + [w] + b) == Fields(a) + Fields(b)
    decreases |a|
  {
    var c := [w] + b;
    AppendAssoc(a, [w], b);
    if a == [] {
      assert a + c == c;
      HeadTailOfAppend([w], b);
    } else if IsSpace(a[0]) {
      HeadTailOfAppend(a, c);
      FieldsAround(a[1..], w, b);
      AppendAssoc(a[1..], [w], b);
    } else {
      var m := TokenLength(a);
      FieldsFirstTokenAppend(a, c);
      FieldsAround(a[m..], w, b);
      AppendAssoc(a[m..], [w], b);
    }
  }
}
