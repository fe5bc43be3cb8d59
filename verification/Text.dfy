/** The string operations the notifier takes from Go's `strings` package,
    with the laws the codecs rely on. Strings are sequences of code points. */
module Text {

  /** `unicode.IsSpace`. */
  predicate IsSpace(c: char) {
    || c in {'\t', '\n', '\U{0B}', '\U{0C}', '\r', ' ', '\U{85}', '\U{A0}', '\U{1680}'}
    || '\U{2000}' <= c <= '\U{200A}'
    || c in {'\U{2028}', '\U{2029}', '\U{202F}', '\U{205F}', '\U{3000}'}
  }

  /** Position of the first `c`, or `|s|` when there is none. */
  function IndexOf(s: string, c: char): (i: nat)
    ensures i <= |s|
    ensures i < |s| ==> s[i] == c
    ensures c !in s[..i]
  {
    if s == "" || s[0] == c then 0 else
      var j := IndexOf(s[1..], c);
      assert s[..j + 1] == [s[0]] + s[1..][..j];
      j + 1
  }

  /** `strings.Split` with a one-character separator. */
  function Split(s: string, sep: char): (parts: seq<string>)
    ensures |parts| > 0
    ensures forall p :: p in parts ==> sep !in p
    ensures Join(parts, [sep]) == s
    decreases |s|
  {
    var i := IndexOf(s, sep);
    if i == |s| then
      assert s[..i] == s;
      [s]
    else
      assert s == s[..i] + [sep] + s[i + 1..];
      [s[..i]] + Split(s[i + 1..], sep)
  }

  /** `strings.Join`. */
  function Join(parts: seq<string>, sep: string): string {
    if |parts| == 0 then ""
    else if |parts| == 1 then parts[0]
    else parts[0] + sep + Join(parts[1..], sep)
  }

  predicate AllSpace(s: string) {
    forall i :: 0 <= i < |s| ==> IsSpace(s[i])
  }

  /** Nothing left to trim. */
  predicate Trimmed(s: string) {
    s != "" ==> !IsSpace(s[0]) && !IsSpace(s[|s| - 1])
  }

  /** `s` is `core` with white space around it. */
  ghost predicate Padded(s: string, core: string) {
    exists i, j :: 0 <= i <= j <= |s| && PaddedAt(s, core, i, j)
  }

  predicate PaddedAt(s: string, core: string, i: int, j: int)
    requires 0 <= i <= j <= |s|
  {
    AllSpace(s[..i]) && s[i..j] == core && AllSpace(s[j..])
  }

  /** `strings.TrimSpace`, left side. */
  function TrimLeft(s: string): string {
    if s != "" && IsSpace(s[0]) then TrimLeft(s[1..]) else s
  }

  /** `strings.TrimSpace`, right side. */
  function TrimRight(s: string): string {
    if s != "" && IsSpace(s[|s| - 1]) then TrimRight(s[..|s| - 1]) else s
  }

  function TrimSpace(s: string): string {
    TrimRight(TrimLeft(s))
  }

  /** `strings.TrimSuffix`: the suffix goes once, if it is there. */
  function TrimSuffix(s: string, suffix: string): (r: string)
    ensures s == r + suffix || (s == r && forall p :: s != p + suffix)
  {
    if |suffix| <= |s| && s[|s| - |suffix|..] == suffix then
      assert s == s[..|s| - |suffix|] + suffix;
      s[..|s| - |suffix|]
    else
      NoSuffix(s, suffix);
      s
  }

  lemma NoSuffix(s: string, suffix: string)
    requires !(|suffix| <= |s| && s[|s| - |suffix|..] == suffix)
    ensures forall p :: s != p + suffix
  {
    forall p: string ensures s != p + suffix {
      assert (p + suffix)[|p + suffix| - |suffix|..] == suffix;
    }
  }

  /** `strings.TrimPrefix`: the prefix goes once, if it is there. */
  function TrimPrefix(s: string, prefix: string): (r: string)
    ensures s == prefix + r || (s == r && forall p :: s != prefix + p)
  {
    if prefix <= s then s[|prefix|..] else s
  }

  /** `strings.TrimRight` with a one-character cutset: every trailing `c` goes. */
  function TrimRightChar(s: string, c: char): (r: string)
    ensures r <= s && (forall i :: |r| <= i < |s| ==> s[i] == c)
    ensures r != "" ==> r[|r| - 1] != c
  {
    if s != "" && s[|s| - 1] == c then TrimRightChar(s[..|s| - 1], c) else s
  }

  /** The number that a string of decimal digits denotes. */
  function Number(digits: string): int {
    if digits == "" then 0 else 10 * Number(digits[..|digits| - 1]) + digits[|digits| - 1] as int - '0' as int
  }

  /** The decimal form that `%d` prints for a count: digits, no leading zero but in "0",
      and read back they are the count. */
  function Decimal(n: nat): (s: string)
    ensures s != "" && forall i :: 0 <= i < |s| ==> '0' <= s[i] <= '9'
    ensures s[0] == '0' ==> s == "0"
    ensures Number(s) == n
  {
    var digit := ['0' + (n % 10) as char];
    if n < 10 then
      assert digit[..0] == "";
      digit
    else
      assert (Decimal(n / 10) + digit)[..|Decimal(n / 10)|] == Decimal(n / 10);
      Decimal(n / 10) + digit
  }

  /** Among the ASCII characters exactly these are white space. */
  lemma AsciiSpaces(c: char)
    requires c as int < 128
    ensures IsSpace(c) <==> c == ' ' || 9 <= c as int <= 13
  {
  }

  /** Joining one part more. */
  lemma {:induction false} JoinSnoc(parts: seq<string>, last: string, sep: string)
    ensures Join(parts + [last], sep) == if parts == [] then last else Join(parts, sep) + sep + last
  {
    if |parts| <= 1 {
    } else {
      assert (parts + [last])[1..] == parts[1..] + [last];
      JoinSnoc(parts[1..], last, sep);
    }
  }

  /** A stretch of `s` between separators or the ends. */
  ghost predicate IsPart(s: string, sep: char, part: string) {
    exists i, j :: 0 <= i <= j <= |s| && PartAt(s, sep, part, i, j)
  }

  predicate PartAt(s: string, sep: char, part: string, i: int, j: int)
    requires 0 <= i <= j <= |s|
  {
    (i == 0 || s[i - 1] == sep) && (j == |s| || s[j] == sep) && s[i..j] == part && sep !in part
  }

  /** `Split` yields the stretches between separators. */
  lemma {:induction false} SplitParts(s: string, sep: char, part: string)
    ensures part in Split(s, sep) <==> IsPart(s, sep, part)
    decreases |s|
  {
    var cut := IndexOf(s, sep);
    if cut == |s| {
      WholePart(s, sep, part);
      hide IsPart;
    } else {
      SplitParts(s[cut + 1..], sep, part);
      PartsOfCut(s, sep, part, cut);
      hide IsPart;
      assert Split(s, sep) == [s[..cut]] + Split(s[cut + 1..], sep);
    }
  }

  lemma WholePart(s: string, sep: char, part: string)
    requires sep !in s
    ensures IsPart(s, sep, part) <==> part == s
    ensures Split(s, sep) == [s]
  {
    SplitPlain(s, sep);
    assert forall k :: 0 <= k < |s| ==> s[k] in s && s[k] != sep;
    assert PartAt(s, sep, s, 0, |s|);
  }

  lemma PartsOfCut(s: string, sep: char, part: string, cut: nat)
    requires cut < |s| && s[cut] == sep && sep !in s[..cut]
    ensures IsPart(s, sep, part) <==> part == s[..cut] || IsPart(s[cut + 1..], sep, part)
  {
    var rest := s[cut + 1..];
    if part == s[..cut] { assert PartAt(s, sep, part, 0, cut); }
    if i, j :| 0 <= i <= j <= |rest| && PartAt(rest, sep, part, i, j) {
      assert s[cut + 1 + i..cut + 1 + j] == rest[i..j];
      assert PartAt(s, sep, part, cut + 1 + i, cut + 1 + j);
    }
    if i, j :| 0 <= i <= j <= |s| && PartAt(s, sep, part, i, j) {
      PartOfCut(s, sep, part, i, j, cut);
    }
  }

  /** A part starts at the beginning and ends at the first separator, or comes after it. */
  lemma PartOfCut(s: string, sep: char, part: string, i: nat, j: nat, cut: nat)
    requires i <= j <= |s| && PartAt(s, sep, part, i, j)
    requires cut < |s| && s[cut] == sep && sep !in s[..cut]
    ensures part == s[..cut] || IsPart(s[cut + 1..], sep, part)
  {
    var rest := s[cut + 1..];
    assert forall k :: 0 <= k < cut ==> s[k] == s[..cut][k] && s[k] in s[..cut];
    assert forall k :: i <= k < j ==> s[k] == s[i..j][k - i] && s[k] in part;
    if i == 0 {
      assert j <= cut;
      assert j == cut;
    } else {
      assert i > cut;
      assert rest[i - cut - 1..j - cut - 1] == s[i..j];
      assert PartAt(rest, sep, part, i - cut - 1, j - cut - 1);
    }
  }

  /** Splitting inverts joining when no part contains the separator. */
  lemma {:induction false} SplitJoin(parts: seq<string>, sep: char)
    requires |parts| > 0
    requires forall p :: p in parts ==> sep !in p
    ensures Split(Join(parts, [sep]), sep) == parts
  {
    if |parts| == 1 {
      SplitPlain(parts[0], sep);
    } else {
      SplitHead(parts[0], sep, Join(parts[1..], [sep]));
      SplitJoin(parts[1..], sep);
      assert parts == [parts[0]] + parts[1..];
    }
  }

  lemma SplitPlain(s: string, sep: char)
    requires sep !in s
    ensures Split(s, sep) == [s]
  {
    FirstSeparator(s, sep, s);
  }

  lemma SplitHead(head: string, sep: char, rest: string)
    requires sep !in head
    ensures Split(head + [sep] + rest, sep) == [head] + Split(rest, sep)
  {
    var s := head + [sep] + rest;
    FirstSeparator(head, sep, s);
    assert s[..|head|] == head && s[|head| + 1..] == rest;
  }

  /** A separator-free prefix is what comes before the first separator. */
  lemma FirstSeparator(head: string, sep: char, s: string)
    requires sep !in head && head <= s
    requires |head| < |s| ==> s[|head|] == sep
    ensures IndexOf(s, sep) == |head|
  {
    var i := IndexOf(s, sep);
    assert forall j :: 0 <= j < |head| ==> s[j] == head[j] && head[j] in head;
    assert forall j :: 0 <= j < i ==> s[j] == s[..i][j] && s[j] in s[..i];
  }

  lemma {:induction false} TrimLeftIs(s: string)
    ensures var r := TrimLeft(s);
      && |r| <= |s| && s[|s| - |r|..] == r && AllSpace(s[..|s| - |r|])
      && (r != "" ==> !IsSpace(r[0]))
  {
    if s != "" && IsSpace(s[0]) {
      TrimLeftIs(s[1..]);
      hide IsSpace;
      var r := TrimLeft(s[1..]);
      assert s[|s| - |r|..] == s[1..][|s| - 1 - |r|..];
      forall i | 0 <= i < |s| - |r| ensures IsSpace(s[i]) {
        assert i > 0 ==> s[i] == s[1..][..|s| - 1 - |r|][i - 1];
      }
    }
  }

  lemma {:induction false} TrimRightIs(s: string)
    ensures var r := TrimRight(s);
      r <= s && AllSpace(s[|r|..]) && (r != "" ==> !IsSpace(r[|r| - 1]))
  {
    if s != "" && IsSpace(s[|s| - 1]) {
      TrimRightIs(s[..|s| - 1]);
      hide IsSpace;
      var r := TrimRight(s[..|s| - 1]);
      forall i | |r| <= i < |s| ensures IsSpace(s[i]) {
        assert i < |s| - 1 ==> s[i] == s[..|s| - 1][|r|..][i - |r|];
      }
    }
  }

  /** `TrimSpace` takes off exactly the white space around a trimmed string. */
  lemma TrimSpaceIff(s: string, core: string)
    ensures TrimSpace(s) == core <==> Trimmed(core) && Padded(s, core)
  {
    SpacesGo(s);
    if Trimmed(core) && Padded(s, core) {
      SameCore(s, core, TrimSpace(s));
    }
  }

  lemma SpacesGo(s: string)
    ensures Trimmed(TrimSpace(s)) && Padded(s, TrimSpace(s))
  {
    hide IsSpace;
    TrimLeftIs(s);
    TrimRightIs(TrimLeft(s));
    var l, r := TrimLeft(s), TrimSpace(s);
    assert r != "" ==> r[0] == l[0];
    assert AllSpace(s[..|s| - |l|]) && AllSpace(l[|r|..]);
    hide AllSpace, TrimLeft, TrimRight, TrimSpace;
    var i := |s| - |l|;
    assert s[i..] == l;
    assert s[i..i + |r|] == l[..|r|] && s[i + |r|..] == l[|r|..];
    assert PaddedAt(s, r, i, i + |r|);
  }

  /** A string is padded around one trimmed string only. */
  lemma SameCore(s: string, a: string, b: string)
    requires Trimmed(a) && Trimmed(b) && Padded(s, a) && Padded(s, b)
    ensures a == b
  {
    var i, j :| 0 <= i <= j <= |s| && PaddedAt(s, a, i, j);
    var k, l :| 0 <= k <= l <= |s| && PaddedAt(s, b, k, l);
    assert forall n :: 0 <= n < i ==> s[n] == s[..i][n];
    assert forall n :: 0 <= n < k ==> s[n] == s[..k][n];
    assert forall n :: j <= n < |s| ==> s[n] == s[j..][n - j];
    assert forall n :: l <= n < |s| ==> s[n] == s[l..][n - l];
    assert a != "" ==> a[0] == s[i] && a[|a| - 1] == s[j - 1];
    assert b != "" ==> b[0] == s[k] && b[|b| - 1] == s[l - 1];
  }
}
