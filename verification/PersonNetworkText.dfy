/**
 The texts of the link contract, character by character: what is escaped and how, what
 an escape or a plus sign reads back as, where a query splits, and which texts are
 numbers and keys.
 */
module PersonNetworkText {
  import opened Options
  import opened PyText
  import opened PersonNetworkUrl

  const HEX: seq<char> := "0123456789ABCDEF"
  const LOWER_HEX: seq<char> := "0123456789abcdef"

  // ---------------------------------------------------------------- Escaping

  /** The characters that section 2.3 of RFC 3986 leaves alone. */
  predicate Safe(c: char) {
    'A' <= c <= 'Z' || 'a' <= c <= 'z' || '0' <= c <= '9' || c in {'-', '.', '_', '~'}
  }

  /** Quoting goes octet by octet: safe ones stand for themselves, all others become a percent sign and two upper-case hex digits. */
  lemma QuoteExactly(c: Octet, rest: Text)
    ensures Quote([c] + rest) ==
      (if Safe(c) then [c] else ['%', HEX[c as int / 16], HEX[c as int % 16]]) + Quote(rest)
    ensures Quote([]) == []
  {
    assert ([c] + rest)[1..] == rest;
    HexDigitIs(c as int / 16);
    HexDigitIs(c as int % 16);
  }

  lemma HexDigitIs(n: nat)
    requires n < 16
    ensures HexDigit(n) == HEX[n]
  {
  }

  /** `c` is the hex digit for `n`, in either case. */
  predicate Hex(c: char, n: nat) { n < 16 && (c == HEX[n] || c == LOWER_HEX[n]) }

  lemma HexValueIs(c: char, n: nat)
    ensures Hex(c, n) <==> HexValue(c) == Some(n)
  {
  }

  /** A hex digit, in either case. */
  predicate HexChar(c: char) { c in HEX || c in LOWER_HEX }

  lemma HexCharIs(c: char)
    ensures HexChar(c) <==> HexValue(c).Some?
    ensures HexChar(if c == '+' then ' ' else c) <==> HexChar(c)
  {
    if HexValue(c).Some? {
      HexValueIs(c, HexValue(c).value);
    }
    if HexChar(c) {
      var n :| 0 <= n < 16 && (HEX[n] == c || LOWER_HEX[n] == c);
      HexValueIs(c, n);
    }
  }

  /** Reading back: an escape with hex digits of either case is its octet, a plus sign is a space, and anything else is itself. */
  lemma DecodeExactly(a: Octet, b: Octet, hi: nat, lo: nat, c: Octet, rest: Text)
    ensures Hex(a, hi) && Hex(b, lo) ==> Decode(['%', a, b] + rest) == [(hi * 16 + lo) as char] + Decode(rest)
    ensures c != '%' ==> Decode([c] + rest) == [if c == '+' then ' ' else c] + Decode(rest)
    ensures |rest| < 2 || !HexChar(rest[0]) || !HexChar(rest[1]) ==> Decode(['%'] + rest) == ['%'] + Decode(rest)
    ensures Decode([]) == []
  {
    if Hex(a, hi) && Hex(b, lo) {
      DecodeEscape(a, b, hi, lo, rest);
    }
    if c != '%' {
      DecodeOne(c, rest);
    }
    if |rest| < 2 || !HexChar(rest[0]) || !HexChar(rest[1]) {
      DecodePercent(rest);
    }
  }

  lemma DecodeEscape(a: Octet, b: Octet, hi: nat, lo: nat, rest: Text)
    requires Hex(a, hi) && Hex(b, lo)
    ensures Decode(['%', a, b] + rest) == [(hi * 16 + lo) as char] + Decode(rest)
  {
    HexValueIs(a, hi);
    HexValueIs(b, lo);
    var s := ['%', a, b] + PlusToSpace(rest);
    assert PlusToSpace(['%', a, b] + rest) == s;
    assert s[3..] == PlusToSpace(rest);
  }

  lemma DecodeOne(c: Octet, rest: Text)
    requires c != '%'
    ensures Decode([c] + rest) == [if c == '+' then ' ' else c] + Decode(rest)
  {
    var s := [if c == '+' then ' ' else c] + PlusToSpace(rest);
    assert PlusToSpace([c] + rest) == s;
    assert s[1..] == PlusToSpace(rest);
  }

  lemma DecodePercent(rest: Text)
    requires |rest| < 2 || !HexChar(rest[0]) || !HexChar(rest[1])
    ensures Decode(['%'] + rest) == ['%'] + Decode(rest)
  {
    var s := ['%'] + PlusToSpace(rest);
    assert PlusToSpace(['%'] + rest) == s && s[1..] == PlusToSpace(rest);
    if |rest| >= 2 {
      HexCharIs(rest[0]);
      HexCharIs(rest[1]);
      HexCharIs(s[1]);
      HexCharIs(s[2]);
    }
  }

  // --------------------------------------------------------------- Splitting

  /** How a query is put together: names and values with `=` between them, pairs with `&` between them. */
  lemma EncodeExactly(p: Pair, more: seq<Pair>)
    ensures UrlEncode([]) == [] && UrlEncode([p]) == Quote(p.0) + "=" + Quote(p.1)
    ensures more != [] ==> UrlEncode([p] + more) == Quote(p.0) + "=" + Quote(p.1) + "&" + UrlEncode(more)
  {
    hide Quote;
    assert ([p] + more)[1..] == more;
  }

  /** How one is taken apart: at every `&`, and a field at its first `=`. */
  lemma PairExactly(name: Text, value: Text, rest: Text)
    requires '&' !in name && '&' !in value && '=' !in name
    ensures ParseQsl(name + "=" + value) == [(Decode(name), Decode(value))]
    ensures ParseQsl(name + "=" + value + "&" + rest) == [(Decode(name), Decode(value))] + ParseQsl(rest)
  {
    hide Decode, Field, ParseQsl;
    FieldOfParts(name, value);
    ParseField(name + "=" + value, rest);
  }

  /** A field without `=` is a name with an empty value; empty fields are skipped. */
  lemma NameExactly(name: Text, rest: Text)
    requires '&' !in name && '=' !in name
    ensures ParseQsl([]) == [] && ParseQsl("&" + rest) == ParseQsl(rest)
    ensures name != [] ==> ParseQsl(name) == [(Decode(name), [])]
    ensures name != [] ==> ParseQsl(name + "&" + rest) == [(Decode(name), [])] + ParseQsl(rest)
  {
    hide Decode, Field, ParseQsl;
    ParseNothing(rest);
    if name != [] {
      FieldOfName(name);
      ParseField(name, rest);
    }
  }

  lemma ParseField(e: Text, rest: Text)
    requires e != [] && '&' !in e
    ensures ParseQsl(e) == [Field(e)] && ParseQsl(e + "&" + rest) == [Field(e)] + ParseQsl(rest)
  {
    hide Field, ParseQsl;
    ParseLast(e);
    ParseFirst(e, rest);
  }

  lemma ParseNothing(rest: Text)
    ensures ParseQsl([]) == [] && ParseQsl("&" + rest) == ParseQsl(rest)
  {
    assert IndexOf("&" + rest, '&') == 0 && ("&" + rest)[1..] == rest;
  }

  lemma FieldOfName(name: Text)
    requires '=' !in name
    ensures Field(name) == (Decode(name), [])
  {
    hide Decode, IndexOf;
    assert name[..|name|] == name;
  }

  /** All question marks in front are dropped, and nothing else is. */
  lemma MarksExactly(s: Text)
    ensures StripMarks("?" + s) == StripMarks(s)
    ensures s == [] || s[0] != '?' ==> StripMarks(s) == s
  {
    assert ("?" + s)[1..] == s;
  }

  // -------------------------------------------------------------------- Keys

  /** The first `::` of a text. */
  predicate FirstAt(s: Text, i: nat) {
    && i + 1 < |s| && s[i] == ':' && s[i + 1] == ':'
    && forall j :: 0 <= j < i ==> !(s[j] == ':' && s[j + 1] == ':')
  }

  /** The first two separators, with something before, between and after them. */
  predicate InThree(s: Text, i: nat, j: nat) {
    FirstAt(s, i) && FirstAt(s[i + 2..], j) && 0 < i && 0 < j && i + 2 + j + 2 < |s|
  }

  /** A key is well formed if it splits at its first `::`, and what follows at its first, into three parts that are not empty. */
  lemma ValidExactly(s: Text)
    ensures IsValidWbaId(s) <==> exists i: nat, j: nat :: InThree(s, i, j)
  {
    hide FirstAt;
    SeparatorIs(s);
    var i := Separator(s);
    if i < |s| {
      SeparatorIs(s[i + 2..]);
      if IsValidWbaId(s) {
        assert InThree(s, i, Separator(s[i + 2..]));
      }
    }
  }

  lemma SeparatorIs(s: Text)
    ensures forall i: nat :: FirstAt(s, i) <==> i == Separator(s) < |s|
  {
  }

  // ----------------------------------------------------------------- Numbers

  /** Digits and underscores, the latter between digits only. */
  predicate Grouping(s: Text) {
    && s != [] && s[0] != '_' && s[|s| - 1] != '_'
    && (forall i :: 0 <= i < |s| ==> '0' <= s[i] <= '9' || s[i] == '_')
    && (forall i :: 0 < i < |s| ==> !(s[i - 1] == '_' && s[i] == '_'))
  }

  /** Exactly those texts are read. */
  lemma {:induction false} DigitsExactly(s: Text)
    ensures ParseDigits(s).Some? <==> Grouping(s)
    decreases |s|
  {
    if |s| > 1 && Digit(s[|s| - 1]) {
      var head := if s[|s| - 2] == '_' then s[..|s| - 2] else s[..|s| - 1];
      DigitsExactly(head);
      if Grouping(head) {
        forall i | 0 <= i < |s| ensures '0' <= s[i] <= '9' || s[i] == '_' {
          assert i < |head| ==> s[i] == head[i];
        }
        forall i | 0 < i < |s| ensures !(s[i - 1] == '_' && s[i] == '_') {
          assert i < |head| ==> s[i] == head[i] && s[i - 1] == head[i - 1];
        }
      }
    }
  }

  /** And one more digit, with or without an underscore before it, appends its value. */
  lemma ValueExactly(s: Text, d: nat)
    requires d < 10 && Grouping(s)
    ensures ParseDigits(s).Some? && ParseDigits(['0' + d as char]) == Some(d)
    ensures ParseDigits(s + ['0' + d as char]) == Some(ParseDigits(s).value * 10 + d)
    ensures ParseDigits(s + ['_', '0' + d as char]) == Some(ParseDigits(s).value * 10 + d)
  {
    DigitsExactly(s);
    var one, two := s + ['0' + d as char], s + ['_', '0' + d as char];
    assert one[..|one| - 1] == s && two[..|two| - 2] == s;
  }

  lemma ReadInt(s: Text, sign: int, digits: Text)
    requires |digits| <= 4300 && sign == (if s != [] && s[0] == '-' then -1 else 1)
    requires digits == if s != [] && (s[0] == '-' || s[0] == '+') then s[1..] else s
    ensures ParseDigits(digits).None? ==> ParseInt(s).None?
    ensures ParseDigits(digits).Some? ==> ParseInt(s) == Some(sign * ParseDigits(digits).value)
  {
    hide ParseDigits, DigitCount;
    DigitCountAtMost(digits);
  }

  /** A sign may stand in front, once; a text that is no such digits is no number. */
  lemma SignsExactly(s: Text)
    requires |s| <= 4300
    ensures ParseDigits(s).None? ==> ParseInt("+" + s).None? && ParseInt("-" + s).None?
    ensures ParseDigits(s).None? && (s == [] || s[0] !in {'+', '-'}) ==> ParseInt(s).None?
    ensures ParseDigits(s).Some? ==>
      var n: int := ParseDigits(s).value; ParseInt(s) == Some(n) && ParseInt("+" + s) == Some(n) && ParseInt("-" + s) == Some(-n)
  {
    DigitsExactly(s);
    hide ParseInt, ParseDigits;
    assert ("+" + s)[1..] == s && ("-" + s)[1..] == s;
    ReadInt("+" + s, 1, s);
    ReadInt("-" + s, -1, s);
    if s == [] || s[0] !in {'+', '-'} {
      ReadInt(s, 1, s);
    }
  }

  /** The ASCII characters that `str.strip` removes. */
  predicate White(c: char) {
    c in {' ', '\t', '\n', '\U{b}', '\U{c}', '\r', '\U{1c}', '\U{1d}', '\U{1e}', '\U{1f}'}
  }

  predicate AllWhite(s: Text) { forall k :: 0 <= k < |s| ==> White(s[k]) }

  lemma {:induction false} LeftStripped(s: Text) returns (i: nat)
    ensures i <= |s| && StripLeft(s) == s[i..] && AllWhite(s[..i]) && (i < |s| ==> !White(s[i]))
  {
    if s != [] && Space(s[0]) {
      i := LeftStripped(s[1..]);
      assert s[i + 1..] == s[1..][i..] && s[..i + 1] == [s[0]] + s[1..][..i];
      i := i + 1;
    } else {
      i := 0;
    }
  }

  lemma {:induction false} RightStripped(s: Text) returns (j: nat)
    ensures j <= |s| && StripRight(s) == s[..j] && AllWhite(s[j..]) && (j > 0 ==> !White(s[j - 1]))
  {
    if s != [] && Space(s[|s| - 1]) {
      var init := s[..|s| - 1];
      j := RightStripped(init);
      assert s[..j] == init[..j] && s[j..] == init[j..] + [s[|s| - 1]];
    } else {
      j := |s|;
      assert s[..|s|] == s;
    }
  }

  /** Stripping takes the white space off both ends, all of it and no more. */
  lemma StripExactly(s: Text) returns (i: nat, j: nat)
    ensures i <= j <= |s| && Strip(s) == s[i..j] && AllWhite(s[..i]) && AllWhite(s[j..])
    ensures i < j ==> !White(s[i]) && !White(s[j - 1])
  {
    hide White, StripLeft, StripRight, AllWhite;
    i := LeftStripped(s);
    var n := RightStripped(s[i..]);
    j := i + n;
    assert s[i..][..n] == s[i..j] && s[i..][n..] == s[j..];
  }

  /** The cap: the default of 25 for what is absent or no number, and otherwise the number brought into 1 to 500. */
  lemma CapExactly(value: Option<Text>)
    ensures value.None? || ParseInt(Strip(value.value)).None? ==> ClampMaxCollaborators(value) == 25
    ensures value.Some? && ParseInt(Strip(value.value)).Some? ==>
      var n := ParseInt(Strip(value.value)).value;
      ClampMaxCollaborators(value) == if n < 1 then 1 else if 500 < n then 500 else n
  {
    hide ParseInt, Strip;
  }

  /** Numbers are written without a leading zero. */
  lemma {:induction false} NoLeadingZero(n: nat)
    ensures Decimal(n)[0] == '0' <==> n == 0
    decreases n
  {
    if n >= 10 {
      NoLeadingZero(n / 10);
    }
  }

  // ----------------------------------------------------- The extra parameters

  /** Extra parameters keep their order; those without a value, or with an empty one, are skipped. */
  lemma {:induction false} ExtrasExactly(key: Text, value: Option<Text>, more: seq<(Text, Option<Text>)>)
    ensures ExtraPairs([]) == []
    ensures ExtraPairs([(key, value)] + more) ==
      (if value.Some? && value.value != [] then [(key, value.value)] else []) + ExtraPairs(more)
    decreases |more|
  {
    var all := [(key, value)] + more;
    if more == [] {
      assert all[..|all| - 1] == [];
    } else {
      ExtrasExactly(key, value, more[..|more| - 1]);
      assert all[..|all| - 1] == [(key, value)] + more[..|more| - 1];
    }
  }

  /** The link: the page's path, the person, the cap if there is one, and the extra parameters. */
  lemma LinkExactly(id: Text, cap: Option<int>, extra: seq<(Text, Option<Text>)>)
    ensures PERSON_NETWORK_PATH + "?" + UrlEncode(LinkPairs(id, cap, extra)) ==
      "/app/collaboration/person?"
      + UrlEncode([("person", id)] + (if cap.Some? then [("max_collaborators", Decimal(ClampInt(cap.value)))] else []) + ExtraPairs(extra))
    ensures cap.Some? ==> ClampInt(cap.value) == if cap.value < 1 then 1 else if 500 < cap.value then 500 else cap.value
  {
    hide UrlEncode, Decimal, ExtraPairs;
    assert PERSON_NETWORK_PATH + "?" == "/app/collaboration/person?";
  }
}
