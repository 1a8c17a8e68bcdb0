/** Character classes and string helpers shared by the form rules: the
    JavaScript whitespace set (used by `\s` and by `String.prototype.trim`),
    ASCII digits (`\d`), trimming, digit extraction and list joining. */
module Text {

  datatype Option<T> = None | Some(value: T)

  /** The characters `\s` matches in a JavaScript regular expression; they are
      also exactly the characters `trim()` strips (WhiteSpace and
      LineTerminator of ECMAScript). */
  predicate IsSpace(c: char) {
    || c == ' ' || c == '\t' || c == '\n' || c == '\r'
    || c == '\U{000B}' || c == '\U{000C}' || c == '\U{00A0}' || c == '\U{1680}'
    || ('\U{2000}' <= c <= '\U{200A}')
    || c == '\U{2028}' || c == '\U{2029}' || c == '\U{202F}' || c == '\U{205F}'
    || c == '\U{3000}' || c == '\U{FEFF}'
  }

  /** `\d`: an ASCII decimal digit. */
  predicate IsDigit(c: char) {
    '0' <= c <= '9'
  }

  predicate NoDigit(s: string) {
    forall k :: 0 <= k < |s| ==> !IsDigit(s[k])
  }

  predicate OnlyDigits(s: string) {
    forall k :: 0 <= k < |s| ==> IsDigit(s[k])
  }

  predicate StartsWith(s: string, prefix: string) {
    |prefix| <= |s| && s[..|prefix|] == prefix
  }

  /** Strips leading whitespace: the result is a suffix of `s`, everything
      dropped is whitespace, and the result does not start with whitespace. */
  function TrimLeft(s: string): (r: string)
    ensures |r| <= |s| && r == s[|s| - |r|..]
    ensures forall k :: 0 <= k < |s| - |r| ==> IsSpace(s[k])
    ensures r != [] ==> !IsSpace(r[0])
  {
    if s != [] && IsSpace(s[0]) then TrimLeft(s[1..]) else s
  }

  /** Strips trailing whitespace: the result is a prefix of `s`, everything
      dropped is whitespace, and the result does not end with whitespace. */
  function TrimRight(s: string): (r: string)
    ensures |r| <= |s| && r == s[..|r|]
    ensures forall k :: |r| <= k < |s| ==> IsSpace(s[k])
    ensures r != [] ==> !IsSpace(r[|r| - 1])
  {
    if s != [] && IsSpace(s[|s| - 1]) then TrimRight(s[..|s| - 1]) else s
  }

  /** `s.trim()`: `s` with its leading and trailing whitespace removed. The
      result is the middle part `s[i..j]` of `s`, everything before `i` and
      from `j` on is whitespace, and the result neither starts nor ends with
      whitespace (so no more could be removed). */
  function Trim(s: string): (r: string)
    ensures exists i, j :: (0 <= i <= j <= |s| && r == s[i..j] &&
      (forall k :: 0 <= k < i ==> IsSpace(s[k])) && (forall k :: j <= k < |s| ==> IsSpace(s[k])))
    ensures r != [] ==> !IsSpace(r[0]) && !IsSpace(r[|r| - 1])
    ensures r == [] <==> forall k :: 0 <= k < |s| ==> IsSpace(s[k])
  {
    var l := TrimLeft(s);
    var r := TrimRight(l);
    TrimMiddle(s, l, r);
    assert r == [] <==> l == [];
    assert l == [] <==> forall k :: 0 <= k < |s| ==> IsSpace(s[k]) by {
      if l != [] {
        assert s[|s| - |l|] == l[0];
      }
    }
    r
  }

  /** A prefix `r` of a suffix `l` of `s`, with only whitespace dropped on
      either side, is a middle part of `s` with only whitespace around it. */
  lemma TrimMiddle(s: string, l: string, r: string)
    requires |l| <= |s| && l == s[|s| - |l|..]
    requires forall k :: 0 <= k < |s| - |l| ==> IsSpace(s[k])
    requires |r| <= |l| && r == l[..|r|]
    requires forall k :: |r| <= k < |l| ==> IsSpace(l[k])
    ensures var i := |s| - |l|; var j := i + |r|;
      0 <= i <= j <= |s| && r == s[i..j] &&
      (forall k :: 0 <= k < i ==> IsSpace(s[k])) && (forall k :: j <= k < |s| ==> IsSpace(s[k]))
  {
    var i := |s| - |l|;
    forall k | i + |r| <= k < |s| ensures IsSpace(s[k]) {
      assert s[k] == l[k - i];
    }
  }

  /** Trimming a string that neither starts nor ends with whitespace leaves it alone. */
  lemma TrimNoOp(s: string)
    requires s != [] ==> !IsSpace(s[0]) && !IsSpace(s[|s| - 1])
    ensures Trim(s) == s
  {
  }

  /** `sub` is `s` with some characters deleted and the rest kept in order.
      Matching each character of `sub` with its earliest possible position in
      `s` finds such a choice whenever there is one. */
  predicate IsSubsequence(sub: string, s: string) {
    if sub == [] then true
    else if s == [] then false
    else if sub[0] == s[0] then IsSubsequence(sub[1..], s[1..])
    else IsSubsequence(sub, s[1..])
  }

  /** `s.replace(/\D/g, "")`: the digits of `s`, in order. */
  function Digits(s: string): (r: string)
    ensures |r| <= |s|
    ensures OnlyDigits(r)
  {
    if s == [] then []
    else (if IsDigit(s[0]) then [s[0]] else []) + Digits(s[1..])
  }

  /** What `Digits` keeps: a subsequence of `s` made only of digits that
      holds every digit as often as `s` does. So every non-digit is dropped
      and every digit kept, in order; no other string has these properties. */
  lemma {:induction false} DigitsKeepsEveryDigit(s: string)
    ensures OnlyDigits(Digits(s))
    ensures IsSubsequence(Digits(s), s)
    ensures forall c :: IsDigit(c) ==> multiset(Digits(s))[c] == multiset(s)[c]
  {
    if s != [] {
      var rest := Digits(s[1..]);
      DigitsKeepsEveryDigit(s[1..]);
      assert s == [s[0]] + s[1..];
      var r := Digits(s);
      if IsDigit(s[0]) {
        assert r == [s[0]] + rest && r[1..] == rest;
      } else {
        assert r == rest;
        if rest != [] {
          assert IsDigit(rest[0]) && rest[0] != s[0];
        }
      }
    }
  }

  lemma {:induction false} DigitsConcat(a: string, b: string)
    ensures Digits(a + b) == Digits(a) + Digits(b)
  {
    if a == [] {
      assert a + b == b;
    } else {
      assert (a + b)[1..] == a[1..] + b;
      DigitsConcat(a[1..], b);
    }
  }

  lemma {:induction false} DigitsOfDigits(s: string)
    requires OnlyDigits(s)
    ensures Digits(s) == s
  {
    if s != [] {
      DigitsOfDigits(s[1..]);
    }
  }

  lemma {:induction false} DigitsOfNoDigit(s: string)
    requires NoDigit(s)
    ensures Digits(s) == []
  {
    if s != [] {
      DigitsOfNoDigit(s[1..]);
    }
  }

  /** A character of the Basic Multilingual Plane: one UTF-16 code unit. */
  predicate InBmp(c: char) {
    c as int <= 0xFFFF
  }

  /** `s.length` in JavaScript: the number of UTF-16 code units, one for a
      character of the Basic Multilingual Plane and two (a surrogate pair)
      for any other. It equals the number of characters exactly when every
      character is in that plane. */
  function JsLength(s: string): (r: nat)
    ensures |s| <= r <= 2 * |s|
    ensures r == |s| <==> forall k :: 0 <= k < |s| ==> InBmp(s[k])
  {
    if s == [] then 0
    else
      var rest := JsLength(s[1..]);
      assert forall k :: 1 <= k < |s| ==> s[k] == s[1..][k - 1];
      (if InBmp(s[0]) then 1 else 2) + rest
  }

  /** The first index of `c` in `s`, or `|s|` when `c` does not occur. */
  function IndexOf(s: string, c: char): (r: nat)
    ensures r <= |s|
    ensures r < |s| ==> s[r] == c
    ensures forall k :: 0 <= k < r ==> s[k] != c
  {
    if s == [] then 0
    else if s[0] == c then 0
    else 1 + IndexOf(s[1..], c)
  }

  /** `items.join(sep)`. */
  function Join(items: seq<string>, sep: string): string {
    if items == [] then ""
    else if |items| == 1 then items[0]
    else items[0] + sep + Join(items[1..], sep)
  }

  /** Splits a string at every ", " (a comma followed by a space); the
      decoder that `Join(_, ", ")` is checked against. */
  function SplitList(s: string): (r: seq<string>)
    ensures |r| > 0
    decreases |s|
  {
    var i := IndexOf(s, ',');
    if i + 1 < |s| && s[i + 1] == ' ' then [s[..i]] + SplitList(s[i + 2..])
    else [s]
  }

  /** Joining with ", " and splitting again gives the list back, provided the
      list is non-empty and no item contains a comma. */
  lemma {:induction false} SplitJoin(items: seq<string>)
    requires |items| > 0
    requires forall j :: 0 <= j < |items| ==> ',' !in items[j]
    ensures SplitList(Join(items, ", ")) == items
  {
    if |items| == 1 {
      assert IndexOf(items[0], ',') == |items[0]|;
    } else {
      var s := Join(items, ", ");
      var x := items[0];
      var rest := Join(items[1..], ", ");
      assert s == x + ", " + rest;
      assert s[|x|] == ',';
      assert IndexOf(s, ',') == |x| by {
        assert forall k :: 0 <= k < |x| ==> s[k] == x[k];
      }
      assert s[..|x|] == x;
      assert s[|x| + 2..] == rest;
      SplitJoin(items[1..]);
      assert items == [x] + items[1..];
    }
  }
}
