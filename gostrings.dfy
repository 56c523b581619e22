/** Models of the Go standard-library string, number and path helpers valforge calls
    (`strings`, `strconv`, `path/filepath`), over Dafny strings. */
module GoStrings {
  import opened Seqs

  /** The characters with the Unicode White_Space property. */
  const WhiteSpace: set<char> :=
    {' ', '\t', '\n', '\U{B}', '\U{C}', '\r', '\U{85}', '\U{A0}', '\U{1680}',
     '\U{2000}', '\U{2001}', '\U{2002}', '\U{2003}', '\U{2004}', '\U{2005}',
     '\U{2006}', '\U{2007}', '\U{2008}', '\U{2009}', '\U{200A}',
     '\U{2028}', '\U{2029}', '\U{202F}', '\U{205F}', '\U{3000}'}

  /** `unicode.IsSpace`. */
  predicate IsSpace(c: char)
  {
    c in WhiteSpace
  }

  /** Index of the first `c` in `s`, or -1 (`strings.Index` / `strings.IndexByte`). */
  function IndexOf(s: string, c: char): (i: int)
    ensures -1 <= i < |s|
    ensures i == -1 <==> c !in s
    ensures i >= 0 ==> s[i] == c && c !in s[..i]
  {
    if s == [] then -1
    else if s[0] == c then 0
    else
      var j := IndexOf(s[1..], c);
      if j == -1 then -1 else j + 1
  }

  /** The first occurrence is the only position holding `c` with none before it. */
  lemma {:induction false} IndexOfUnique(s: string, c: char, i: int)
    requires 0 <= i < |s| && s[i] == c && c !in s[..i]
    ensures IndexOf(s, c) == i
  {
    if i > 0 {
      assert s[..i][0] == s[0];
      assert s[1..][..i - 1] == s[..i][1..];
      IndexOfUnique(s[1..], c, i - 1);
    }
  }

  /** `strings.Split(s, string(sep))`: the pieces between separators; never empty. */
  function Split(s: string, sep: char): (parts: seq<string>)
    ensures |parts| >= 1
  {
    var i := IndexOf(s, sep);
    if i == -1 then [s] else [s[..i]] + Split(s[i + 1..], sep)
  }

  /** No piece contains the separator. */
  lemma {:induction false} SplitPiecesAvoidSeparator(s: string, sep: char)
    ensures forall k :: 0 <= k < |Split(s, sep)| ==> sep !in Split(s, sep)[k]
  {
    var i := IndexOf(s, sep);
    if i != -1 {
      SplitPiecesAvoidSeparator(s[i + 1..], sep);
    }
  }

  /** `strings.Join(parts, string(sep))`. */
  function JoinWith(parts: seq<string>, sep: char): string
  {
    if parts == [] then ""
    else if |parts| == 1 then parts[0]
    else parts[0] + [sep] + JoinWith(parts[1..], sep)
  }

  /** Splitting and joining again gives back the original text. */
  lemma {:induction false} SplitJoin(s: string, sep: char)
    ensures JoinWith(Split(s, sep), sep) == s
  {
    var i := IndexOf(s, sep);
    if i != -1 {
      var head, rest := s[..i], s[i + 1..];
      var tail := Split(rest, sep);
      assert Split(s, sep) == [head] + tail;
      SplitJoin(rest, sep);
      JoinCons(head, tail, sep);
      CutAt(s, i);
    }
  }

  /** Joining pieces free of the separator and splitting again gives back the pieces. */
  lemma {:induction false} JoinSplit(parts: seq<string>, sep: char)
    requires parts != []
    requires forall k :: 0 <= k < |parts| ==> sep !in parts[k]
    ensures Split(JoinWith(parts, sep), sep) == parts
  {
    if |parts| == 1 {
      assert IndexOf(parts[0], sep) == -1;
    } else {
      var head, tail := parts[0], parts[1..];
      assert parts == [head] + tail;
      JoinCons(head, tail, sep);
      var rest := JoinWith(tail, sep);
      var s := head + [sep] + rest;
      assert s[..|head|] == head && s[|head| + 1..] == rest;
      IndexOfUnique(s, sep, |head|);
      JoinSplit(tail, sep);
    }
  }

  lemma JoinCons(head: string, tail: seq<string>, sep: char)
    requires |tail| >= 1
    ensures JoinWith([head] + tail, sep) == head + [sep] + JoinWith(tail, sep)
  {
    assert ([head] + tail)[1..] == tail;
  }

  /** A string is its prefix, the character at the cut, and its suffix. */
  lemma CutAt(s: string, i: int)
    requires 0 <= i < |s|
    ensures s == s[..i] + [s[i]] + s[i + 1..]
  {
  }

  /** Length of the leading run of white space. */
  function LeadingSpace(s: string): (n: nat)
    ensures n <= |s|
    ensures forall j :: 0 <= j < n ==> IsSpace(s[j])
    ensures n < |s| ==> !IsSpace(s[n])
  {
    if s == [] || !IsSpace(s[0]) then 0 else 1 + LeadingSpace(s[1..])
  }

  /** Length of the trailing run of white space. */
  function TrailingSpace(s: string): (n: nat)
    ensures n <= |s|
    ensures forall j :: |s| - n <= j < |s| ==> IsSpace(s[j])
    ensures n < |s| ==> !IsSpace(s[|s| - n - 1])
  {
    if s == [] || !IsSpace(s[|s| - 1]) then 0 else 1 + TrailingSpace(s[..|s| - 1])
  }

  /** `strings.TrimLeftFunc(s, unicode.IsSpace)`. */
  function TrimLeftSpace(s: string): (r: string)
    ensures |r| <= |s| && r == s[|s| - |r|..]
    ensures r == [] || !IsSpace(r[0])
    ensures forall k :: 0 <= k < |s| - |r| ==> IsSpace(s[k])
  {
    s[LeadingSpace(s)..]
  }

  /** `strings.TrimRightFunc(s, unicode.IsSpace)`. */
  function TrimRightSpace(s: string): (r: string)
    ensures |r| <= |s| && r == s[..|r|]
    ensures r == [] || !IsSpace(r[|r| - 1])
    ensures forall k :: |r| <= k < |s| ==> IsSpace(s[k])
  {
    s[..|s| - TrailingSpace(s)]
  }

  /** `strings.TrimSpace`: no white space left at either end. */
  function TrimSpace(s: string): (r: string)
    ensures r == [] || (!IsSpace(r[0]) && !IsSpace(r[|r| - 1]))
  {
    TrimRightSpace(TrimLeftSpace(s))
  }

  /** Text with no white space at either end is left as it is. */
  lemma TrimSpaceUnchanged(s: string)
    requires s == [] || (!IsSpace(s[0]) && !IsSpace(s[|s| - 1]))
    ensures TrimSpace(s) == s
  {
    assert LeadingSpace(s) == 0;
    assert s[0..] == s;
    assert TrailingSpace(s) == 0;
    assert s[..|s|] == s;
  }

  /** A non-empty run of non-space characters. */
  predicate IsWord(w: string)
  {
    w != [] && forall j :: 0 <= j < |w| ==> !IsSpace(w[j])
  }

  /** `strings.Fields`: the maximal runs of non-space characters, in order; none exactly when
      `s` is all white space. */
  function Fields(s: string): (fs: seq<string>)
    ensures fs == [] <==> TrimLeftSpace(s) == []
    decreases |s|
  {
    var t := TrimLeftSpace(s);
    if t == [] then []
    else
      var n := WordLength(t);
      assert n > 0;
      [t[..n]] + Fields(t[n..])
  }

  /** Every field is a word. */
  lemma {:induction false} FieldsAreWords(s: string)
    ensures forall k :: 0 <= k < |Fields(s)| ==> IsWord(Fields(s)[k])
    decreases |s|
  {
    var t := TrimLeftSpace(s);
    if t != [] {
      var n := WordLength(t);
      var rest := t[n..];
      FieldsAreWords(rest);
      assert IsWord(t[..n]);
      assert Fields(s) == [t[..n]] + Fields(rest);
    }
  }

  /** `s` is the words `ws` in order, with white space (possibly none) before the first and
      after the last, and at least one white-space character between two of them. */
  predicate SeparatedWords(s: string, ws: seq<string>)
    decreases |ws|
  {
    var t := TrimLeftSpace(s);
    if ws == [] then t == []
    else
      var w := ws[0];
      && IsWord(w) && |w| <= |t| && t[..|w|] == w
      && (|w| == |t| || IsSpace(t[|w|]))
      && SeparatedWords(t[|w|..], ws[1..])
  }

  /** The fields are the maximal runs of non-space characters, in order: `Fields(s)` is the one
      list of words that `s` separates. */
  lemma FieldsExactly(s: string, ws: seq<string>)
    ensures SeparatedWords(s, ws) <==> ws == Fields(s)
  {
    FieldsSeparated(s);
    if SeparatedWords(s, ws) {
      SeparatedAreFields(s, ws);
    }
  }

  lemma {:induction false} FieldsSeparated(s: string)
    ensures SeparatedWords(s, Fields(s))
    decreases |s|
  {
    var t := TrimLeftSpace(s);
    if t != [] {
      var n := WordLength(t);
      var w := t[..n];
      assert IsWord(w);
      var fs := Fields(s);
      assert fs == [w] + Fields(t[n..]);
      assert fs[0] == w && fs[1..] == Fields(t[n..]);
      FieldsSeparated(t[n..]);
      assert t[..|w|] == w && (|w| == |t| || IsSpace(t[|w|]));
    }
  }

  lemma {:induction false} SeparatedAreFields(s: string, ws: seq<string>)
    requires SeparatedWords(s, ws)
    ensures ws == Fields(s)
    decreases |ws|
  {
    FieldsUnfold(s);
    if ws != [] {
      var t := TrimLeftSpace(s);
      var n := |ws[0]|;
      SeparatedUnfold(s, ws);
      WordIsLeadingRun(t, n);
      SeparatedAreFields(t[n..], ws[1..]);
      HeadTail(ws);
    }
  }

  lemma SeparatedUnfold(s: string, ws: seq<string>)
    requires SeparatedWords(s, ws) && ws != []
    ensures var t, n := TrimLeftSpace(s), |ws[0]|;
      && 0 < n <= |t| && t[..n] == ws[0]
      && (forall j :: 0 <= j < n ==> !IsSpace(t[j]))
      && (n == |t| || IsSpace(t[n]))
      && SeparatedWords(t[n..], ws[1..])
  {
    var t, w := TrimLeftSpace(s), ws[0];
    assert forall j :: 0 <= j < |w| ==> t[j] == w[j];
  }

  /** A prefix of non-space characters followed by white space or the end is the whole leading
      non-space run. */
  lemma {:induction false} WordIsLeadingRun(t: string, m: nat)
    requires m <= |t| && forall j :: 0 <= j < m ==> !IsSpace(t[j])
    requires m == |t| || IsSpace(t[m])
    ensures WordLength(t) == m
  {
    if m > 0 {
      WordIsLeadingRun(t[1..], m - 1);
    }
  }

  /** The concatenation of a list of strings. */
  function Concat(ws: seq<string>): string
  {
    if ws == [] then [] else ws[0] + Concat(ws[1..])
  }

  /** `s` with every white-space character removed. */
  function NonSpace(s: string): (r: string)
    ensures forall k :: 0 <= k < |r| ==> !IsSpace(r[k])
  {
    if s == [] then [] else (if IsSpace(s[0]) then [] else [s[0]]) + NonSpace(s[1..])
  }

  lemma {:induction false} NonSpaceAppend(a: string, b: string)
    ensures NonSpace(a + b) == NonSpace(a) + NonSpace(b)
  {
    if a != [] {
      var head := if IsSpace(a[0]) then [] else [a[0]];
      assert a + b != [] && (a + b)[0] == a[0] && (a + b)[1..] == a[1..] + b;
      assert NonSpace(a) == head + NonSpace(a[1..]);
      NonSpaceAppend(a[1..], b);
      assert NonSpace(a + b) == head + (NonSpace(a[1..]) + NonSpace(b));
    } else {
      assert a + b == b;
    }
  }

  lemma {:induction false} NonSpaceOfSpaces(s: string)
    requires forall k :: 0 <= k < |s| ==> IsSpace(s[k])
    ensures NonSpace(s) == []
  {
    if s != [] {
      NonSpaceOfSpaces(s[1..]);
    }
  }

  lemma {:induction false} NonSpaceOfWord(s: string)
    requires forall k :: 0 <= k < |s| ==> !IsSpace(s[k])
    ensures NonSpace(s) == s
  {
    if s != [] {
      NonSpaceOfWord(s[1..]);
    }
  }

  /** Nothing but white space is lost: the fields put together are `s` without its white
      space. */
  lemma {:induction false} FieldsConcat(s: string)
    ensures Concat(Fields(s)) == NonSpace(s)
    decreases |s|
  {
    var t := TrimLeftSpace(s);
    NonSpaceSkipsSpace(s);
    FieldsUnfold(s);
    if t != [] {
      var n := WordLength(t);
      NonSpaceSkipsWord(t);
      FieldsConcat(t[n..]);
      ConcatCons(t[..n], Fields(t[n..]));
    }
  }

  /** `Fields` takes the first word after the leading white space, then the fields of the rest. */
  lemma FieldsUnfold(s: string)
    ensures TrimLeftSpace(s) == [] ==> Fields(s) == []
    ensures TrimLeftSpace(s) != [] ==>
      var t := TrimLeftSpace(s);
      Fields(s) == [t[..WordLength(t)]] + Fields(t[WordLength(t)..])
  {
  }

  lemma NonSpaceSkipsSpace(s: string)
    ensures NonSpace(s) == NonSpace(TrimLeftSpace(s))
  {
    var a := LeadingSpace(s);
    assert s == s[..a] + s[a..];
    NonSpaceAppend(s[..a], s[a..]);
    NonSpaceOfSpaces(s[..a]);
  }

  lemma NonSpaceSkipsWord(t: string)
    ensures NonSpace(t) == t[..WordLength(t)] + NonSpace(t[WordLength(t)..])
  {
    var n := WordLength(t);
    assert t == t[..n] + t[n..];
    NonSpaceAppend(t[..n], t[n..]);
    NonSpaceOfWord(t[..n]);
  }

  lemma ConcatCons(w: string, ws: seq<string>)
    ensures Concat([w] + ws) == w + Concat(ws)
  {
    assert ([w] + ws)[1..] == ws;
  }

  /** Length of the leading run of non-space characters. */
  function WordLength(s: string): (n: nat)
    ensures n <= |s|
    ensures forall j :: 0 <= j < n ==> !IsSpace(s[j])
    ensures n < |s| ==> IsSpace(s[n])
  {
    if s == [] || IsSpace(s[0]) then 0 else 1 + WordLength(s[1..])
  }

  /** Length of the leading run of `c`. */
  function LeadingRun(s: string, c: char): (n: nat)
    ensures n <= |s|
    ensures forall j :: 0 <= j < n ==> s[j] == c
    ensures n < |s| ==> s[n] != c
  {
    if s == [] || s[0] != c then 0 else 1 + LeadingRun(s[1..], c)
  }

  /** Length of the trailing run of `c`. */
  function TrailingRun(s: string, c: char): (n: nat)
    ensures n <= |s|
    ensures forall j :: |s| - n <= j < |s| ==> s[j] == c
    ensures n < |s| ==> s[|s| - n - 1] != c
  {
    if s == [] || s[|s| - 1] != c then 0 else 1 + TrailingRun(s[..|s| - 1], c)
  }

  /** `strings.Trim(s, string(c))`: removes the leading run of `c`, then the trailing one, and
      keeps the text between them as it is. */
  function TrimChar(s: string, c: char): (r: string)
    ensures var a := LeadingRun(s, c);
      && a + |r| <= |s| && r == s[a..a + |r|]
      && forall k :: a + |r| <= k < |s| ==> s[k] == c
    ensures r == [] || (r[0] != c && r[|r| - 1] != c)
  {
    var a := LeadingRun(s, c);
    var t := s[a..];
    t[..|t| - TrailingRun(t, c)]
  }

  predicate IsUpperAscii(c: char)
  {
    'A' <= c <= 'Z'
  }

  /** `strings.ToLower`, restricted to the ASCII letters. */
  function ToLowerAscii(s: string): (r: string)
    ensures |r| == |s|
    ensures forall k :: 0 <= k < |s| ==>
      r[k] == if IsUpperAscii(s[k]) then (s[k] as int + 32) as char else s[k]
  {
    if s == [] then []
    else [if IsUpperAscii(s[0]) then (s[0] as int + 32) as char else s[0]] + ToLowerAscii(s[1..])
  }

  predicate IsDigit(c: char)
  {
    '0' <= c <= '9'
  }

  predicate AllDigits(s: string)
  {
    forall k :: 0 <= k < |s| ==> IsDigit(s[k])
  }

  /** The value of a string of decimal digits. */
  function DigitsValue(s: string): (v: nat)
    requires AllDigits(s)
  {
    if s == [] then 0 else DigitsValue(s[..|s| - 1]) * 10 + (s[|s| - 1] as int - '0' as int)
  }

  const MinInt64: int := -0x8000_0000_0000_0000
  const MaxInt64: int := 0x7FFF_FFFF_FFFF_FFFF

  datatype Option<T> = None | Some(value: T)

  /** `strconv.ParseInt(s, 10, 64)` (and `strconv.Atoi` on a 64-bit platform): an optional
      sign and at least one decimal digit, with a value that fits in an int64. */
  function ParseInt64(s: string): (r: Option<int>)
    ensures r.Some? ==> MinInt64 <= r.value <= MaxInt64
    ensures r.Some? ==> s != [] && s != "+" && s != "-"
  {
    var neg := s != [] && s[0] == '-';
    var digits := if s != [] && (s[0] == '-' || s[0] == '+') then s[1..] else s;
    if digits == [] || !AllDigits(digits) then None
    else
      var d: int := DigitsValue(digits);
      var v := if neg then -d else d;
      if MinInt64 <= v <= MaxInt64 then Some(v) else None
  }

  /** What `ParseInt64` accepts: an optional '+' or '-', then only decimal digits, at least one. */
  lemma ParseInt64Shape(s: string)
    requires ParseInt64(s).Some?
    ensures |s| > 0
    ensures s[0] == '+' || s[0] == '-' ==> |s| > 1 && AllDigits(s[1..])
    ensures !(s[0] == '+' || s[0] == '-') ==> AllDigits(s)
  {
  }

  /** What `ParseInt64` gives for a signed digit string: the digits' value, negated after '-',
      when it fits in an int64, and nothing otherwise. */
  lemma ParseInt64Value(sign: string, digits: string)
    requires sign == "" || sign == "+" || sign == "-"
    requires digits != [] && AllDigits(digits)
    ensures var v: int := if sign == "-" then -(DigitsValue(digits) as int) else DigitsValue(digits);
      ParseInt64(sign + digits) == if MinInt64 <= v <= MaxInt64 then Some(v) else None
  {
    var s := sign + digits;
    if sign == "" {
      assert s == digits;
    } else {
      assert s[0] == sign[0] && s[1..] == digits;
    }
  }

  /** `s` ends with `suffix` (`strings.HasSuffix`): it is some text followed by `suffix`. */
  predicate HasSuffix(s: string, suffix: string): (b: bool)
    ensures b <==> exists p :: s == p + suffix
  {
    var b := |suffix| <= |s| && s[|s| - |suffix|..] == suffix;
    assert b ==> s == s[..|s| - |suffix|] + suffix;
    assert forall p :: s == p + suffix ==> s[|s| - |suffix|..] == suffix;
    b
  }

  /** `strings.TrimSuffix`: the suffix is removed exactly when `s` ends with it. */
  function TrimSuffix(s: string, suffix: string): (r: string)
    ensures HasSuffix(s, suffix) ==> r + suffix == s
    ensures !HasSuffix(s, suffix) ==> r == s
  {
    if |suffix| <= |s| && s[|s| - |suffix|..] == suffix then s[..|s| - |suffix|] else s
  }

  /** Index of the last `c` in `s`, or -1. */
  function LastIndexOf(s: string, c: char): (i: int)
    ensures -1 <= i < |s|
    ensures i >= 0 ==> s[i] == c && c !in s[i + 1..]
    ensures i == -1 <==> c !in s
  {
    if s == [] then -1
    else if s[|s| - 1] == c then |s| - 1
    else
      var init := s[..|s| - 1];
      var i := LastIndexOf(init, c);
      assert s == init + [s[|s| - 1]];
      assert i >= 0 ==> s[i + 1..] == init[i + 1..] + [s[|s| - 1]];
      i
  }

  /** The last occurrence is the only position holding `c` with none after it. */
  lemma {:induction false} LastIndexOfUnique(s: string, c: char, i: int)
    requires 0 <= i < |s| && s[i] == c && c !in s[i + 1..]
    ensures LastIndexOf(s, c) == i
  {
    if i < |s| - 1 {
      var n := |s| - 1;
      assert s[i + 1..][n - i - 1] == s[n];
      assert s[..n][i + 1..] == s[i + 1..n];
      assert s[i + 1..n] == s[i + 1..][..n - i - 1];
      LastIndexOfUnique(s[..n], c, i);
    }
  }

  /** `filepath.Dir` on a clean path: everything before the last '/', "/" for a root
      entry and "." when there is no '/'. */
  function Dir(path: string): (r: string)
    ensures '/' !in path ==> r == "."
    ensures r == "." || r == "/" || (|r| < |path| && r == path[..|r|] && path[|r|] == '/')
  {
    var i := LastIndexOf(path, '/');
    if i == -1 then "." else if i == 0 then "/" else path[..i]
  }

  /** `filepath.Base` on a clean path: everything after the last '/', "/" for the root and "."
      for the empty path. */
  function Base(path: string): (r: string)
    ensures r == "." || r == "/" || (|r| <= |path| && r == path[|path| - |r|..] && '/' !in r)
  {
    var rest := path[LastIndexOf(path, '/') + 1..];
    if path == [] then "." else if rest == [] then "/" else rest
  }

  /** No `c` comes after the last one. */
  lemma LastSeen(s: string, c: char)
    ensures forall k :: LastIndexOf(s, c) < k < |s| ==> s[k] != c
  {
    var i := LastIndexOf(s, c);
    forall k | i < k < |s| ensures s[k] != c {
      if i == -1 {
        assert s[k] in s;
      } else {
        assert s[k] == s[i + 1..][k - i - 1];
      }
    }
  }

  /** `filepath.Ext`: the suffix from the last '.' of the final element, or "" when the final
      element has no '.'. */
  function Ext(path: string): (e: string)
    ensures e == [] <==> forall k :: LastIndexOf(path, '/') < k < |path| ==> path[k] != '.'
    ensures e != [] ==> |e| <= |path| && e == path[|path| - |e|..] && e[0] == '.'
    ensures forall k :: 1 <= k < |e| ==> e[k] != '.'
    ensures forall k :: 0 <= k < |e| ==> e[k] != '/'
  {
    var i := LastIndexOf(path, '.');
    var l := LastIndexOf(path, '/');
    LastSeen(path, '.');
    LastSeen(path, '/');
    if i == -1 || i < l then ""
    else
      assert path[i] == '.' && l < i;
      var e := path[i..];
      assert forall k :: 0 <= k < |e| ==> e[k] == path[i + k];
      e
  }

  /** `filepath.Join(dir, name)` for a clean directory and a plain file name: the name, after
      the directory and a '/' between them. */
  function Join(dir: string, name: string): (r: string)
    ensures dir == "" || dir == "." ==> r == name
    ensures dir != "" && dir != "." ==> |dir| + |name| < |r| + 1 && r[..|dir|] == dir && r[|r| - |name| - 1] == '/'
    ensures |name| <= |r| && r[|r| - |name|..] == name
    ensures dir != "" && dir != "." ==> |r| <= |dir| + |name| + 1
  {
    if dir == "" || dir == "." then name
    else if dir[|dir| - 1] == '/' then dir + name
    else dir + "/" + name
  }
}
