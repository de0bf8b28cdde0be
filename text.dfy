/** The Python 2 string operations the converters rely on, stated over
    `string` (a sequence of characters; the scripts handle byte strings, so
    whitespace and case are the ASCII ones). */
module Text {
  import opened Common

  predicate StartsWith(s: string, prefix: string) {
    |prefix| <= |s| && s[..|prefix|] == prefix
  }

  /** Python's `s.endswith(suffix)`. */
  predicate EndsWith(s: string, suffix: string) {
    |suffix| <= |s| && s[|s| - |suffix|..] == suffix
  }

  /** A suffix of a suffix is a suffix. */
  lemma EndsWithTrans(s: string, mid: string, suffix: string)
    requires EndsWith(s, mid) && EndsWith(mid, suffix)
    ensures EndsWith(s, suffix)
  {
    assert s[|s| - |suffix|..] == mid[|mid| - |suffix|..];
  }

  /** Text glued in front keeps a suffix. */
  lemma EndsWithAppend(a: string, b: string)
    ensures EndsWith(a + b, b)
  {
    assert (a + b)[|a + b| - |b|..] == b;
  }

  /** Python's `sub in s`. */
  predicate Contains(s: string, sub: string)
    decreases |s|
  {
    StartsWith(s, sub) || (|s| > 0 && Contains(s[1..], sub))
  }

  /** For a one-character pattern, `sub in s` is plain membership. */
  lemma {:induction false} ContainsChar(s: string, c: char)
    ensures Contains(s, [c]) <==> c in s
    decreases |s|
  {
    if |s| > 0 {
      ContainsChar(s[1..], c);
      assert s == [s[0]] + s[1..];
    }
  }

  /** Python's `"".join(parts)`, and in general the concatenation of a sequence of sequences. */
  function Flatten<T>(parts: seq<seq<T>>): seq<T>
    decreases |parts|
  {
    if |parts| == 0 then [] else parts[0] + Flatten(parts[1..])
  }

  lemma {:induction false} FlattenAppend<T>(a: seq<seq<T>>, b: seq<seq<T>>)
    ensures Flatten(a + b) == Flatten(a) + Flatten(b)
    decreases |a|
  {
    if |a| > 0 {
      FlattenAppend(a[1..], b);
      assert (a + b)[0] == a[0] && (a + b)[1..] == a[1..] + b;
      calc {
        Flatten(a + b);
        a[0] + Flatten(a[1..] + b);
        a[0] + (Flatten(a[1..]) + Flatten(b));
        (a[0] + Flatten(a[1..])) + Flatten(b);
      }
    } else {
      assert a + b == b;
    }
  }

  function CountChar(s: string, c: char): (n: nat)
    ensures n <= |s|
    decreases |s|
  {
    if |s| == 0 then 0 else (if s[0] == c then 1 else 0) + CountChar(s[1..], c)
  }

  // ---------------------------------------------------------------------
  // str.split(sep) and sep.join(fields)
  // ---------------------------------------------------------------------

  /** Python's `s.split(sep)` for a non-empty separator: the fields between
      the non-overlapping occurrences of `sep`, found from the left. */
  function Split(s: string, sep: string): (r: seq<string>)
    requires |sep| > 0
    ensures |r| >= 1
    decreases |s|
  {
    if |s| == 0 then [""]
    else if StartsWith(s, sep) then [""] + Split(s[|sep|..], sep)
    else
      var rest := Split(s[1..], sep);
      [[s[0]] + rest[0]] + rest[1..]
  }

  /** Python's `sep.join(fields)` for a non-empty list. */
  function Join(fields: seq<string>, sep: string): string
    requires |fields| >= 1
    decreases |fields|
  {
    if |fields| == 1 then fields[0] else fields[0] + sep + Join(fields[1..], sep)
  }

  /** Gluing text onto the first field glues it onto the joined string. */
  lemma JoinPrepend(c: string, fields: seq<string>, sep: string)
    requires |fields| >= 1
    ensures Join([c + fields[0]] + fields[1..], sep) == c + Join(fields, sep)
  {
    var g := [c + fields[0]] + fields[1..];
    if |fields| > 1 {
      assert g[1..] == fields[1..];
    }
  }

  /** Joining the fields of a split with the same separator gives the string back. */
  lemma {:induction false} JoinSplit(s: string, sep: string)
    requires |sep| > 0
    ensures Join(Split(s, sep), sep) == s
    decreases |s|
  {
    if |s| == 0 {
    } else if StartsWith(s, sep) {
      JoinSplit(s[|sep|..], sep);
      JoinSplitAtSep(s, sep);
    } else {
      JoinSplit(s[1..], sep);
      JoinSplitAtChar(s, sep);
    }
  }

  /** The step of JoinSplit where `s` starts with the separator. */
  lemma JoinSplitAtSep(s: string, sep: string)
    requires |sep| > 0 && |s| > 0 && StartsWith(s, sep)
    requires Join(Split(s[|sep|..], sep), sep) == s[|sep|..]
    ensures Join(Split(s, sep), sep) == s
  {
    var tail := s[|sep|..];
    assert Split(s, sep) == [""] + Split(tail, sep);
    JoinCons("", Split(tail, sep), sep);
    assert s == sep + tail;
  }

  /** The step of JoinSplit where `s` starts with a character of a field. */
  lemma JoinSplitAtChar(s: string, sep: string)
    requires |sep| > 0 && |s| > 0 && !StartsWith(s, sep)
    requires Join(Split(s[1..], sep), sep) == s[1..]
    ensures Join(Split(s, sep), sep) == s
  {
    var rest := Split(s[1..], sep);
    assert Split(s, sep) == [[s[0]] + rest[0]] + rest[1..];
    JoinPrepend([s[0]], rest, sep);
    assert s == [s[0]] + s[1..];
  }

  lemma JoinCons(f: string, rest: seq<string>, sep: string)
    requires |rest| >= 1
    ensures Join([f] + rest, sep) == f + sep + Join(rest, sep)
  {
    assert ([f] + rest)[1..] == rest;
  }

  /** Splitting on one character gives one field more than there are
      occurrences of it, and no field holds that character. */
  lemma {:induction false} SplitChar(s: string, c: char)
    ensures |Split(s, [c])| == CountChar(s, c) + 1
    ensures forall f :: f in Split(s, [c]) ==> c !in f
    decreases |s|
  {
    if |s| > 0 {
      SplitChar(s[1..], c);
      var rest := Split(s[1..], [c]);
      if s[0] == c {
        assert StartsWith(s, [c]);
        assert s[|[c]|..] == s[1..];
      } else {
        assert !StartsWith(s, [c]);
        var r := Split(s, [c]);
        assert r == [[s[0]] + rest[0]] + rest[1..];
        assert rest[0] in rest;
        forall f | f in r ensures c !in f {
          if f != r[0] {
            assert f in rest[1..];
          }
        }
      }
    }
  }

  /** A first field free of the separator's first character is split off whole. */
  lemma {:induction false} SplitFirst(a: string, sep: string, b: string)
    requires |sep| > 0
    requires forall i :: 0 <= i < |a| ==> a[i] != sep[0]
    ensures Split(a + sep + b, sep) == [a] + Split(b, sep)
    decreases |a|
  {
    var s := a + sep + b;
    if |a| == 0 {
      assert s == sep + b;
      assert StartsWith(s, sep);
      assert s[|sep|..] == b;
    } else {
      assert |sep| <= |s| ==> s[..|sep|][0] == a[0] != sep[0];
      assert s[1..] == a[1..] + sep + b;
      SplitFirst(a[1..], sep, b);
      assert [s[0]] + a[1..] == a;
    }
  }

  /** A string free of the separator's first character is a single field. */
  lemma {:induction false} SplitNone(a: string, sep: string)
    requires |sep| > 0
    requires forall i :: 0 <= i < |a| ==> a[i] != sep[0]
    ensures Split(a, sep) == [a]
    decreases |a|
  {
    if |a| > 0 {
      assert |sep| <= |a| ==> a[..|sep|][0] != sep[0];
      SplitNone(a[1..], sep);
      assert [a[0]] + a[1..] == a;
    }
  }

  /** Splitting a join of fields free of the separator's first character
      gives the fields back. */
  lemma {:induction false} SplitJoin(fields: seq<string>, sep: string)
    requires |sep| > 0 && |fields| >= 1
    requires forall k, i :: 0 <= k < |fields| && 0 <= i < |fields[k]| ==> fields[k][i] != sep[0]
    ensures Split(Join(fields, sep), sep) == fields
    decreases |fields|
  {
    if |fields| == 1 {
      SplitNone(fields[0], sep);
    } else {
      SplitFirst(fields[0], sep, Join(fields[1..], sep));
      SplitJoin(fields[1..], sep);
    }
  }

  /** Text appended to a join lands on its last field. */
  lemma {:induction false} JoinAppend(fields: seq<string>, sep: string, t: string)
    requires |fields| >= 1
    ensures Join(fields, sep) + t == Join(fields[..|fields| - 1] + [fields[|fields| - 1] + t], sep)
    decreases |fields|
  {
    var g := fields[..|fields| - 1] + [fields[|fields| - 1] + t];
    if |fields| > 1 {
      JoinAppend(fields[1..], sep, t);
      assert g[1..] == fields[1..][..|fields[1..]| - 1] + [fields[1..][|fields[1..]| - 1] + t];
    }
  }

  /** A character in neither the fields nor the separator is not in their join. */
  lemma {:induction false} JoinFree(fields: seq<string>, sep: string, c: char)
    requires |fields| >= 1
    requires forall k, i :: 0 <= k < |fields| && 0 <= i < |fields[k]| ==> fields[k][i] != c
    requires forall i :: 0 <= i < |sep| ==> sep[i] != c
    ensures forall i :: 0 <= i < |Join(fields, sep)| ==> Join(fields, sep)[i] != c
    decreases |fields|
  {
    if |fields| > 1 {
      JoinFree(fields[1..], sep, c);
    }
  }

  /** Removing a trailing separator from a field free of it gives the field. */
  lemma RemoveTrailing(a: string, sep: string)
    requires |sep| > 0
    requires forall i :: 0 <= i < |a| ==> a[i] != sep[0]
    ensures Replace(a + sep, sep, "") == a
  {
    ReplaceIsJoinSplit(a + sep, sep, "");
    SplitFirst(a, sep, "");
    assert a + sep + "" == a + sep;
  }

  /** Python's `fields[-1]`. */
  function Last<T>(fields: seq<T>): T
    requires |fields| > 0
  {
    fields[|fields| - 1]
  }

  // ---------------------------------------------------------------------
  // str.replace(pat, rep)
  // ---------------------------------------------------------------------

  /** Python's `s.replace(pat, rep)`: every non-overlapping occurrence of
      `pat`, found from the left, is replaced by `rep`. */
  function Replace(s: string, pat: string, rep: string): string
    requires |pat| > 0
    decreases |s|
  {
    if |s| == 0 then ""
    else if StartsWith(s, pat) then rep + Replace(s[|pat|..], pat, rep)
    else [s[0]] + Replace(s[1..], pat, rep)
  }

  /** Python's identity `s.replace(pat, rep) == rep.join(s.split(pat))`. */
  lemma {:induction false} ReplaceIsJoinSplit(s: string, pat: string, rep: string)
    requires |pat| > 0
    ensures Replace(s, pat, rep) == Join(Split(s, pat), rep)
    decreases |s|
  {
    if |s| == 0 {
    } else if StartsWith(s, pat) {
      ReplaceIsJoinSplit(s[|pat|..], pat, rep);
    } else {
      ReplaceIsJoinSplit(s[1..], pat, rep);
      var rest := Split(s[1..], pat);
      var r := Split(s, pat);
      assert r == [[s[0]] + rest[0]] + rest[1..];
      if |rest| > 1 {
        assert r[1..] == rest[1..];
      }
    }
  }

  /** A string without the pattern is left as it is. */
  lemma {:induction false} ReplaceAbsent(s: string, pat: string, rep: string)
    requires |pat| > 0 && !Contains(s, pat)
    ensures Replace(s, pat, rep) == s
    decreases |s|
  {
    if |s| > 0 {
      ReplaceAbsent(s[1..], pat, rep);
      assert s == [s[0]] + s[1..];
    }
  }

  /** Replacing a one-character pattern by text without that character
      leaves no occurrence of it. */
  lemma {:induction false} ReplaceCharGone(s: string, c: char, rep: string)
    requires c !in rep
    ensures c !in Replace(s, [c], rep)
    decreases |s|
  {
    if |s| > 0 {
      ReplaceCharGone(s[1..], c, rep);
      if s[0] == c {
        assert StartsWith(s, [c]);
        assert s[|[c]|..] == s[1..];
      } else {
        assert !StartsWith(s, [c]);
      }
    }
  }

  // ---------------------------------------------------------------------
  // whitespace, case
  // ---------------------------------------------------------------------

  /** The characters Python 2's `str.strip` family removes. */
  predicate IsSpace(c: char) {
    c == ' ' || c == '\t' || c == '\n' || c == '\r' || c == '\U{0B}' || c == '\U{0C}'
  }

  /** Python's `s.lstrip()`: the longest suffix of `s` not starting with whitespace. */
  function LStrip(s: string): (r: string)
    ensures |r| <= |s| && r == s[|s| - |r|..]
    ensures r == [] || !IsSpace(r[0])
    ensures forall i :: 0 <= i < |s| - |r| ==> IsSpace(s[i])
    decreases |s|
  {
    if |s| > 0 && IsSpace(s[0]) then LStrip(s[1..]) else s
  }

  /** Python's `s.rstrip()`: the longest prefix of `s` not ending with whitespace. */
  function RStrip(s: string): (r: string)
    ensures |r| <= |s| && r == s[..|r|]
    ensures r == [] || !IsSpace(r[|r| - 1])
    ensures forall i :: |r| <= i < |s| ==> IsSpace(s[i])
    decreases |s|
  {
    if |s| > 0 && IsSpace(s[|s| - 1]) then RStrip(s[..|s| - 1]) else s
  }

  /** The longest prefix of `t` free of whitespace. */
  function Word(t: string): (w: string)
    ensures |w| <= |t| && w == t[..|w|]
    ensures forall i :: 0 <= i < |w| ==> !IsSpace(w[i])
    ensures |w| < |t| ==> IsSpace(t[|w|])
    ensures |t| > 0 && !IsSpace(t[0]) ==> |w| > 0
    decreases |t|
  {
    if |t| > 0 && !IsSpace(t[0]) then [t[0]] + Word(t[1..]) else []
  }

  /** A nonempty string free of whitespace. */
  predicate IsWord(w: string) {
    |w| > 0 && forall i :: 0 <= i < |w| ==> !IsSpace(w[i])
  }

  /** Python's `s.split()` without a separator: the maximal runs of
      non-whitespace characters, in order. */
  function Words(s: string): (r: seq<string>)
    ensures forall w :: w in r ==> IsWord(w)
    decreases |s|
  {
    var t := LStrip(s);
    if |t| == 0 then []
    else
      var w := Word(t);
      [w] + Words(t[|w|..])
  }

  /** A word followed by nothing or by whitespace is the first word read. */
  lemma WordsCons(w: string, rest: string)
    requires IsWord(w)
    requires rest == [] || IsSpace(rest[0])
    ensures Words(w + rest) == [w] + Words(rest)
  {
    WordOfWord(w, rest);
    assert (w + rest)[|w|..] == rest;
  }

  /** Words joined by single spaces split back into the same words. */
  lemma {:induction false} WordsOfJoin(ws: seq<string>)
    requires |ws| > 0 && forall i :: 0 <= i < |ws| ==> IsWord(ws[i])
    ensures Words(Join(ws, " ")) == ws
    decreases |ws|
  {
    if |ws| == 1 {
      assert ws == [ws[0]];
      WordsOfOne(ws[0]);
    } else {
      assert forall i :: 0 <= i < |ws| - 1 ==> IsWord(ws[1..][i]);
      WordsOfJoin(ws[1..]);
      WordsOfJoinStep(ws);
    }
  }

  /** A single word splits back into itself. */
  lemma WordsOfOne(w: string)
    requires IsWord(w)
    ensures Words(Join([w], " ")) == [w]
  {
    assert w + "" == w;
    assert Join([w], " ") == w;
    assert Words("") == [];
    WordsCons(w, "");
    assert [w] + [] == [w];
  }

  /** The step of WordsOfJoin: the first word, a space, then the others. */
  lemma WordsOfJoinStep(ws: seq<string>)
    requires |ws| > 1 && IsWord(ws[0])
    requires Words(Join(ws[1..], " ")) == ws[1..]
    ensures Words(Join(ws, " ")) == ws
  {
    assert ws == [ws[0]] + ws[1..];
    WordSpaceWords(ws[0], Join(ws[1..], " "));
  }

  /** A word, a space, then more text: the word comes first. */
  lemma WordSpaceWords(w: string, rest: string)
    requires IsWord(w)
    ensures Words(w + " " + rest) == [w] + Words(rest)
  {
    assert w + " " + rest == w + (" " + rest);
    WordsCons(w, " " + rest);
    SpaceThenWords(rest);
  }

  lemma SpaceThenWords(s: string)
    ensures Words(" " + s) == Words(s)
  {
    assert (" " + s)[1..] == s;
  }

  /** A word followed by nothing or by whitespace is read as a whole. */
  lemma {:induction false} WordOfWord(w: string, rest: string)
    requires IsWord(w)
    requires rest == [] || IsSpace(rest[0])
    ensures LStrip(w + rest) == w + rest
    ensures Word(w + rest) == w
    decreases |w|
  {
    if |w| > 1 {
      assert (w + rest)[1..] == w[1..] + rest;
      WordOfWord(w[1..], rest);
    } else {
      assert (w + rest)[1..] == rest;
    }
  }

  /** Python's `s.strip()`. */
  function Strip(s: string): string {
    RStrip(LStrip(s))
  }

  /** Trailing whitespace does not survive rstrip. */
  lemma {:induction false} RStripSpaces(s: string, t: string)
    requires forall i :: 0 <= i < |t| ==> IsSpace(t[i])
    ensures RStrip(s + t) == RStrip(s)
    decreases |t|
  {
    if |t| > 0 {
      assert (s + t)[..|s + t| - 1] == s + t[..|t| - 1];
      RStripSpaces(s, t[..|t| - 1]);
    } else {
      assert s + t == s;
    }
  }

  /** lstrip of a string with a non-space character stops inside it. */
  lemma {:induction false} LStripAppend(s: string, t: string)
    requires exists i :: 0 <= i < |s| && !IsSpace(s[i])
    ensures LStrip(s + t) == LStrip(s) + t
    decreases |s|
  {
    assert (s + t)[0] == s[0];
    if IsSpace(s[0]) {
      assert (s + t)[1..] == s[1..] + t;
      var i :| 0 <= i < |s| && !IsSpace(s[i]);
      assert !IsSpace(s[1..][i - 1]);
      LStripAppend(s[1..], t);
    }
  }

  /** strip removes a line ending after text that starts with a non-space. */
  lemma StripLineEnd(s: string, t: string)
    requires |s| > 0 && !IsSpace(s[0])
    requires forall i :: 0 <= i < |t| ==> IsSpace(t[i])
    ensures Strip(s + t) == Strip(s)
  {
    LStripAppend(s, t);
    RStripSpaces(LStrip(s), t);
  }

  /** Python's `int(s + "\r\n") == int(s)`. */
  lemma ParseIntLineEnd(s: string, t: string)
    requires |s| > 0 && !IsSpace(s[0])
    requires forall i :: 0 <= i < |t| ==> IsSpace(t[i])
    ensures ParseInt(s + t) == ParseInt(s)
  {
    StripLineEnd(s, t);
  }

  function LowerChar(c: char): char {
    if 'A' <= c <= 'Z' then (c as int - 'A' as int + 'a' as int) as char else c
  }

  /** Python 2's `s.lower()` on a byte string: ASCII capitals become small letters. */
  function Lower(s: string): (r: string)
    ensures |r| == |s|
    ensures forall i :: 0 <= i < |s| ==> r[i] == LowerChar(s[i])
  {
    seq(|s|, i requires 0 <= i < |s| => LowerChar(s[i]))
  }

  /** A lower-cased name holds no capital, and lower-casing it again changes nothing. */
  lemma LowerIsLower(s: string)
    ensures forall i :: 0 <= i < |s| ==> !('A' <= Lower(s)[i] <= 'Z')
    ensures Lower(Lower(s)) == Lower(s)
  {
  }

  // ---------------------------------------------------------------------
  // int() and float()
  // ---------------------------------------------------------------------

  predicate IsDigit(c: char) { '0' <= c <= '9' }

  predicate AllDigits(s: string) {
    forall i :: 0 <= i < |s| ==> IsDigit(s[i])
  }

  function DigitValue(c: char): nat
    requires IsDigit(c)
  {
    c as int - '0' as int
  }

  /** The value of a decimal digit string, most significant digit first. */
  function DigitsValue(s: string): nat
    requires AllDigits(s)
    decreases |s|
  {
    if |s| == 0 then 0 else DigitsValue(s[..|s| - 1]) * 10 + DigitValue(s[|s| - 1])
  }

  function Pow10(n: nat): (p: nat)
    ensures p >= 1
  {
    if n == 0 then 1 else 10 * Pow10(n - 1)
  }

  /** The sign and the rest of a stripped numeral. */
  function SignOf(t: string): (r: (bool, string))
    ensures |r.1| <= |t|
  {
    if |t| > 0 && (t[0] == '-' || t[0] == '+') then (t[0] == '-', t[1..]) else (false, t)
  }

  /** Python 2's `int(s)` in base 10: optional surrounding whitespace, an
      optional sign, then at least one digit; anything else is a ValueError. */
  function ParseInt(s: string): (r: Result<int>)
    ensures r.Err? ==> r.error == ValueError
  {
    var (neg, digits) := SignOf(Strip(s));
    if |digits| > 0 && AllDigits(digits) then
      var v: int := DigitsValue(digits);
      Ok(if neg then -v else v)
    else Err(ValueError)
  }

  /** An unsigned decimal numeral: digits with at most one decimal point and
      at least one digit. */
  function ParseDecimal(body: string): (r: Result<real>)
    ensures r.Ok? ==> r.value >= 0.0
    ensures r.Err? ==> r.error == ValueError
  {
    var parts := Split(body, ".");
    if |parts| == 1 && |body| > 0 && AllDigits(body) then
      Ok(DigitsValue(body) as real)
    else if |parts| == 2 && |body| > 1 && AllDigits(parts[0]) && AllDigits(parts[1]) then
      Ok(DigitsValue(parts[0]) as real + DigitsValue(parts[1]) as real / Pow10(|parts[1]|) as real)
    else Err(ValueError)
  }

  /** A decimal exponent: an optional sign and at least one digit. */
  function ParseExponent(t: string): (r: Result<int>)
    ensures r.Err? ==> r.error == ValueError
  {
    var (neg, digits) := SignOf(t);
    if |digits| > 0 && AllDigits(digits) then
      var e: int := DigitsValue(digits);
      Ok(if neg then -e else e)
    else Err(ValueError)
  }

  /** m times ten to the power e. */
  function Scale(m: real, e: int): real {
    if e >= 0 then m * Pow10(e) as real else m / Pow10(-e) as real
  }

  /** Python's `float(s)` for finite numerals: optional surrounding
      whitespace, an optional sign, a decimal mantissa and an optional
      exponent introduced by `e` or `E`. */
  function ParseReal(s: string): (r: Result<real>)
    ensures r.Err? ==> r.error == ValueError
  {
    var (neg, body) := SignOf(Strip(s));
    var parts := Split(Lower(body), "e");
    var m :- ParseDecimal(parts[0]);
    var v :- if |parts| == 1 then Ok(m)
             else if |parts| == 2 then (var e :- ParseExponent(parts[1]); Ok(Scale(m, e)))
             else Err(ValueError);
    Ok(if neg then -v else v)
  }

  /** A string Python's int() accepts, float() reads as the same number. */
  lemma ParseRealExtendsParseInt(s: string)
    requires ParseInt(s).Ok?
    ensures ParseReal(s) == Ok(ParseInt(s).value as real)
  {
    var (neg, body) := SignOf(Strip(s));
    assert Lower(body) == body;
    OneField(body, 'e');
    OneField(body, '.');
  }

  /** A digit string splits into itself on any separator that is not a digit. */
  lemma OneField(s: string, c: char)
    requires AllDigits(s) && !IsDigit(c)
    ensures Split(s, [c]) == [s]
  {
    SplitChar(s, c);
    NoCharInDigits(s, c);
    JoinSplit(s, [c]);
  }

  lemma {:induction false} NoCharInDigits(s: string, c: char)
    requires AllDigits(s) && !IsDigit(c)
    ensures CountChar(s, c) == 0
    decreases |s|
  {
    if |s| > 0 {
      NoCharInDigits(s[1..], c);
    }
  }

  /** The decimal numeral of a natural number, without leading zeros. */
  function FormatNat(n: nat): (s: string)
    ensures |s| > 0 && AllDigits(s)
    decreases n
  {
    if n < 10 then [('0' as int + n) as char]
    else FormatNat(n / 10) + [('0' as int + n % 10) as char]
  }

  /** Python's `str(n)` for an int. */
  function FormatInt(n: int): string {
    if n < 0 then "-" + FormatNat(-n) else FormatNat(n)
  }

  lemma {:induction false} DigitsOfFormat(n: nat)
    ensures DigitsValue(FormatNat(n)) == n
    decreases n
  {
    if n >= 10 {
      DigitsOfFormat(n / 10);
      var s := FormatNat(n);
      assert s[..|s| - 1] == FormatNat(n / 10);
    }
  }

  /** int() reads back what str() writes. */
  lemma ParseFormatInt(n: int)
    ensures ParseInt(FormatInt(n)) == Ok(n)
  {
    var s := FormatInt(n);
    var d := FormatNat(if n < 0 then -n else n);
    DigitsOfFormat(if n < 0 then -n else n);
    assert !IsSpace(s[0]) && !IsSpace(s[|s| - 1]);
    assert LStrip(s) == s;
    assert RStrip(s) == s;
    if n < 0 {
      assert s[1..] == d;
    }
  }

  /** Python's `os.path.join(a, b)` on POSIX: an absolute `b` replaces `a`;
      otherwise a slash is put between them unless `a` is empty or already
      ends with one. */
  function PathJoin(a: string, b: string): (r: string)
    ensures EndsWith(r, b)
    ensures StartsWith(b, "/") ==> r == b
  {
    if StartsWith(b, "/") then b
    else if |a| == 0 || a[|a| - 1] == '/' then a + b
    else a + "/" + b
  }

  /** str() of an int is a minus sign or digits, and starts with neither a
      space nor anything float() would not read. */
  lemma FormatIntChars(n: int)
    ensures |FormatInt(n)| > 0 && !IsSpace(FormatInt(n)[0])
    ensures forall i :: 0 <= i < |FormatInt(n)| ==> FormatInt(n)[i] == '-' || IsDigit(FormatInt(n)[i])
  {
  }
}
