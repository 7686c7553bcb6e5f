/**
 The URL contract of src/domain/person_network_url.py: a printer and a parser of query
 strings that must undo each other.  Percent-encoding is that of sections 2.1 and 2.3
 of RFC 3986.  A text is its UTF-8 form, one char an octet.
 */
module PersonNetworkUrl {
  import opened Options
  import opened PyText

  const PERSON_NETWORK_PATH: Text := "/app/collaboration/person"
  const PERSON_PARAM: Text := "person"
  const MAX_COLLABORATORS_PARAM: Text := "max_collaborators"
  const DEFAULT_MAX_COLLABORATORS := 25
  const MIN_MAX_COLLABORATORS := 1
  const MAX_MAX_COLLABORATORS := 500

  // -------------------------------------------------------- Percent-encoding

  predicate Unreserved(c: char) {
    'a' <= c <= 'z' || 'A' <= c <= 'Z' || Digit(c) || c == '_' || c == '.' || c == '-' || c == '~'
  }

  function HexDigit(n: nat): Octet
    requires n < 16
  {
    if n < 10 then '0' + n as char else 'A' + (n - 10) as char
  }

  function HexValue(c: char): (r: Option<nat>)
    ensures r.Some? ==> r.value < 16
  {
    if Digit(c) then Some((c - '0') as nat)
    else if 'a' <= c <= 'f' then Some((c - 'a') as nat + 10)
    else if 'A' <= c <= 'F' then Some((c - 'A') as nat + 10)
    else None
  }

  function QuoteOctet(c: Octet): Text {
    if Unreserved(c) then [c] else ['%', HexDigit(c as int / 16), HexDigit(c as int % 16)]
  }

  function Quote(s: Text): Text { if s == [] then [] else QuoteOctet(s[0]) + Quote(s[1..]) }

  /** A percent sign not followed by two hex digits stands for itself. */
  function Unquote(s: Text): Text {
    if s == [] then []
    else if |s| >= 3 && s[0] == '%' && HexValue(s[1]).Some? && HexValue(s[2]).Some? then
      [(HexValue(s[1]).value * 16 + HexValue(s[2]).value) as char] + Unquote(s[3..])
    else [s[0]] + Unquote(s[1..])
  }

  function PlusToSpace(s: Text): Text { seq(|s|, i requires 0 <= i < |s| => if s[i] == '+' then ' ' else s[i]) }

  lemma HexRoundTrip(n: nat)
    requires n < 16
    ensures HexValue(HexDigit(n)) == Some(n)
  {
  }

  lemma {:induction false} UnquoteQuote(s: Text)
    ensures Unquote(Quote(s)) == s
  {
    if s != [] {
      UnquoteQuote(s[1..]);
      var c, q := s[0], QuoteOctet(s[0]);
      if Unreserved(c) {
        assert Quote(s)[1..] == Quote(s[1..]);
      } else {
        HexRoundTrip(c as int / 16);
        HexRoundTrip(c as int % 16);
        assert Quote(s)[3..] == Quote(s[1..]);
        assert (c as int / 16 * 16 + c as int % 16) as char == c;
      }
    }
  }

  /** A quoted text holds percent signs, hex digits and unreserved characters only. */
  predicate Plain(s: Text) { forall i :: 0 <= i < |s| ==> Unreserved(s[i]) || s[i] == '%' }

  lemma {:induction false} QuoteIsPlain(s: Text)
    ensures Plain(Quote(s))
  {
    if s != [] {
      QuoteIsPlain(s[1..]);
    }
  }

  // ------------------------------------------------------------ Query strings

  type Pair = (Text, Text)

  function Encoded(p: Pair): Text { Quote(p.0) + "=" + Quote(p.1) }

  function UrlEncode(pairs: seq<Pair>): Text {
    if pairs == [] then []
    else if |pairs| == 1 then Encoded(pairs[0])
    else Encoded(pairs[0]) + "&" + UrlEncode(pairs[1..])
  }

  function IndexOf(s: Text, c: char): (i: nat)
    ensures i <= |s| && (i < |s| ==> s[i] == c) && forall j :: 0 <= j < i ==> s[j] != c
  {
    if s == [] || s[0] == c then 0 else 1 + IndexOf(s[1..], c)
  }

  function Decode(s: Text): Text { Unquote(PlusToSpace(s)) }

  /** One field: the name up to the first `=`, a value that is empty without one. */
  function Field(s: Text): Pair {
    var i := IndexOf(s, '=');
    (Decode(s[..i]), if i < |s| then Decode(s[i + 1..]) else [])
  }

  /** `parse_qsl` with blank values kept; empty fields are skipped. */
  function ParseQsl(s: Text): seq<Pair>
    decreases |s|
  {
    var i := IndexOf(s, '&');
    (if i == 0 then [] else [Field(s[..i])]) + if i < |s| then ParseQsl(s[i + 1..]) else []
  }

  lemma PlainDecodes(s: Text)
    ensures Decode(Quote(s)) == s
  {
    QuoteIsPlain(s);
    assert PlusToSpace(Quote(s)) == Quote(s);
    UnquoteQuote(s);
  }

  lemma IndexIs(s: Text, c: char, i: nat)
    requires i < |s| && s[i] == c && c !in s[..i]
    ensures IndexOf(s, c) == i
  {
    assert forall j :: 0 <= j < i ==> s[j] == s[..i][j];
  }

  lemma EncodedIsPlain(p: Pair)
    ensures Plain(Quote(p.0)) && Plain(Quote(p.1))
    ensures Encoded(p) != [] && '&' !in Encoded(p)
  {
    QuoteIsPlain(p.0);
    QuoteIsPlain(p.1);
    hide Quote;
  }

  lemma FieldOfParts(name: Text, value: Text)
    requires '=' !in name
    ensures Field(name + "=" + value) == (Decode(name), Decode(value))
  {
    hide Decode, IndexOf;
    var e := name + "=" + value;
    assert e[..|name|] == name && e[|name| + 1..] == value;
    IndexIs(e, '=', |name|);
  }

  lemma FieldOfEncoded(p: Pair)
    ensures Field(Encoded(p)) == p
    ensures Encoded(p) != [] && '&' !in Encoded(p)
  {
    EncodedIsPlain(p);
    hide Quote, Decode, Field;
    FieldOfParts(Quote(p.0), Quote(p.1));
    PlainDecodes(p.0);
    PlainDecodes(p.1);
  }

  lemma ParseFirst(e: Text, rest: Text)
    requires e != [] && '&' !in e
    ensures ParseQsl(e + "&" + rest) == [Field(e)] + ParseQsl(rest)
  {
    hide Field;
    var s := e + "&" + rest;
    assert s[..|e|] == e && s[|e| + 1..] == rest;
    IndexIs(s, '&', |e|);
  }

  lemma ParseLast(e: Text)
    requires e != [] && '&' !in e
    ensures ParseQsl(e) == [Field(e)]
  {
    hide Field;
    assert e[..|e|] == e;
  }

  lemma EncodeStep(pairs: seq<Pair>)
    ensures pairs == [] ==> UrlEncode(pairs) == [] && ParseQsl([]) == []
    ensures pairs != [] ==>
      UrlEncode(pairs) == if |pairs| == 1 then Encoded(pairs[0]) else Encoded(pairs[0]) + "&" + UrlEncode(pairs[1..])
  {
    hide Encoded, Field;
  }

  /** The round trip: what is encoded parses back to the same pairs, in order, whatever they hold. */
  lemma {:induction false} ParseUndoesEncode(pairs: seq<Pair>)
    ensures ParseQsl(UrlEncode(pairs)) == pairs
  {
    hide Encoded, Field, ParseQsl, UrlEncode;
    EncodeStep(pairs);
    if pairs != [] {
      var e, rest := Encoded(pairs[0]), pairs[1..];
      FieldOfEncoded(pairs[0]);
      if |pairs| == 1 {
        ParseLast(e);
      } else {
        ParseUndoesEncode(rest);
        ParseFirst(e, UrlEncode(rest));
      }
      assert [pairs[0]] + rest == pairs;
    }
  }

  function StripMarks(s: Text): Text { if s != [] && s[0] == '?' then StripMarks(s[1..]) else s }

  function Params(search: Text): seq<Pair> { ParseQsl(StripMarks(search)) }

  lemma EncodeStartsPlain(pairs: seq<Pair>)
    ensures StripMarks(UrlEncode(pairs)) == UrlEncode(pairs)
    ensures StripMarks("?" + UrlEncode(pairs)) == UrlEncode(pairs)
  {
    if pairs != [] {
      QuoteIsPlain(pairs[0].0);
      assert UrlEncode(pairs)[0] == Encoded(pairs[0])[0];
      assert Encoded(pairs[0])[0] == if Quote(pairs[0].0) == [] then '=' else Quote(pairs[0].0)[0];
    }
    assert ("?" + UrlEncode(pairs))[1..] == UrlEncode(pairs);
  }

  // ------------------------------------------------------ Values of one key

  /** The list `parse_qs` gives a key. */
  function Values(pairs: seq<Pair>, key: Text): seq<Text> {
    if pairs == [] then []
    else (if pairs[0].0 == key then [pairs[0].1] else []) + Values(pairs[1..], key)
  }

  function FirstValue(pairs: seq<Pair>, key: Text): Option<Text> {
    var vs := Values(pairs, key);
    if vs == [] then None else Some(vs[0])
  }

  // -------------------------------------------------------- Ids and the cap

  /** Where the first `::` starts, or the length. */
  function Separator(s: Text): (i: nat)
    ensures i <= |s| && (i < |s| ==> i + 1 < |s| && s[i] == ':' && s[i + 1] == ':')
    ensures forall j :: 0 <= j < i && j + 1 < |s| ==> s[j] != ':' || s[j + 1] != ':'
  {
    if s == [] then 0
    else if |s| >= 2 && s[0] == ':' && s[1] == ':' then 0
    else 1 + Separator(s[1..])
  }

  /** Three non-empty parts, split at the first two `::`. */
  predicate IsValidWbaId(s: Text) {
    var i := Separator(s);
    && 0 < i < |s|
    && var rest := s[i + 2..];
       var j := Separator(rest);
       0 < j < |rest| && j + 2 < |rest|
  }

  /** Digits with single underscores between them, as Python's `int` reads them. */
  function ParseDigits(s: Text): Option<nat> {
    if s == [] || !Digit(s[|s| - 1]) then None
    else
      var d := (s[|s| - 1] - '0') as nat;
      if |s| == 1 then Some(d)
      else
        var head := if s[|s| - 2] == '_' then s[..|s| - 2] else s[..|s| - 1];
        var r := ParseDigits(head);
        if r.None? then None else Some(r.value * 10 + d)
  }

  function DigitCount(s: Text): nat { if s == [] then 0 else (if Digit(s[0]) then 1 else 0) + DigitCount(s[1..]) }

  /** Python refuses to convert more digits than this. */
  const MAX_STR_DIGITS := 4300

  function ParseInt(s: Text): Option<int> {
    var sign := if s != [] && s[0] == '-' then -1 else 1;
    var digits := if s != [] && (s[0] == '-' || s[0] == '+') then s[1..] else s;
    var r := ParseDigits(digits);
    if r.None? || DigitCount(digits) > MAX_STR_DIGITS then None else Some(sign * r.value)
  }

  function ClampInt(n: int): nat {
    if n < MIN_MAX_COLLABORATORS then MIN_MAX_COLLABORATORS
    else if n > MAX_MAX_COLLABORATORS then MAX_MAX_COLLABORATORS else n
  }

  /** The cap read from a URL: the default for what is absent, blank or no number. */
  function ClampMaxCollaborators(value: Option<Text>): (r: int)
    ensures MIN_MAX_COLLABORATORS <= r <= MAX_MAX_COLLABORATORS
  {
    if value.None? then DEFAULT_MAX_COLLABORATORS
    else
      var parsed := ParseInt(Strip(value.value));
      if parsed.None? then DEFAULT_MAX_COLLABORATORS else ClampInt(parsed.value)
  }

  lemma {:induction false} ParseDecimal(n: nat)
    ensures ParseDigits(Decimal(n)) == Some(n)
    decreases n
  {
    if n >= 10 {
      ParseDecimal(n / 10);
      var s := Decimal(n);
      assert s[..|s| - 1] == Decimal(n / 10);
      assert s[|s| - 2] == Decimal(n / 10)[|s| - 2];
    }
  }

  lemma ShortDecimal(n: nat)
    requires n <= 500
    ensures |Decimal(n)| <= 3
  {
    assert n >= 10 ==> |Decimal(n)| == |Decimal(n / 10)| + 1;
    assert n >= 100 ==> |Decimal(n / 10)| == |Decimal(n / 100)| + 1 by {
      assert n / 10 / 10 == n / 100;
    }
  }

  /** A number that Python converts to a text and back: it has no more digits than the limit. */
  predicate Convertible(n: int) { |Decimal(if n < 0 then -n else n)| <= MAX_STR_DIGITS }

  lemma ParseIntText(n: int)
    requires Convertible(n)
    ensures Strip(IntText(n)) == IntText(n) && ParseInt(IntText(n)) == Some(n)
  {
    var s := Decimal(if n < 0 then -n else n);
    assert Digit(s[0]) && Digit(s[|s| - 1]);
    StripUnspaced(IntText(n));
    ParseDecimal(if n < 0 then -n else n);
    DigitCountAtMost(s);
    if n < 0 {
      assert IntText(n)[1..] == s;
    }
  }

  lemma StripUnspaced(s: Text)
    requires s != [] && !Space(s[0]) && !Space(s[|s| - 1])
    ensures Strip(s) == s
  {
  }

  lemma {:induction false} StripBlank(s: Text)
    requires forall i :: 0 <= i < |s| ==> Space(s[i])
    ensures Strip(s) == []
  {
    if s != [] {
      StripBlank(s[1..]);
    }
  }

  lemma ParseBlank()
    ensures ParseInt([]).None?
  {
  }

  /**
   What a cap in a URL means: the default when it is absent, blank or no number; the
   number written when that is in range, and otherwise the bound nearest to it.
   */
  lemma ClampMeaning(value: Option<Text>, n: int)
    ensures value.None? || (forall i :: 0 <= i < |value.value| ==> Space(value.value[i])) || ParseInt(Strip(value.value)).None?
      ==> ClampMaxCollaborators(value) == 25
    ensures value == Some(IntText(n)) && Convertible(n) ==>
      var r := ClampMaxCollaborators(value);
      && 1 <= r <= 500 && (1 <= n <= 500 ==> r == n)
      && (forall m :: 1 <= m <= 500 ==> Distance(n, r) <= Distance(n, m))
  {
    hide ParseInt, Strip, IntText, Convertible;
    if value.Some? && forall i :: 0 <= i < |value.value| ==> Space(value.value[i]) {
      StripBlank(value.value);
      ParseBlank();
    }
    if value == Some(IntText(n)) && Convertible(n) {
      ParseIntText(n);
    }
  }

  function Distance(a: int, b: int): nat { if a < b then b - a else a - b }

  /** A clamped cap survives being written and read. */
  lemma CapRoundTrip(n: int)
    ensures ClampMaxCollaborators(Some(Decimal(ClampInt(n)))) == ClampInt(n)
  {
    var s := Decimal(ClampInt(n));
    assert Digit(s[0]) && Digit(s[|s| - 1]);
    assert Strip(s) == s;
    ParseDecimal(ClampInt(n));
    DigitCountAtMost(s);
    ShortDecimal(ClampInt(n));
  }

  lemma {:induction false} DigitCountAtMost(s: Text)
    ensures DigitCount(s) <= |s|
  {
    if s != [] {
      DigitCountAtMost(s[1..]);
    }
  }

  // ------------------------------------------------------------- The builder

  function CapPairs(cap: Option<int>): seq<Pair> {
    if cap.None? then [] else [(MAX_COLLABORATORS_PARAM, Decimal(ClampInt(cap.value)))]
  }

  /** The extra parameters that have a value. */
  function ExtraPairs(extra: seq<(Text, Option<Text>)>): seq<Pair> {
    if extra == [] then []
    else
      var last := extra[|extra| - 1];
      ExtraPairs(extra[..|extra| - 1]) + if last.1.None? || last.1.value == [] then [] else [(last.0, last.1.value)]
  }

  function LinkPairs(id: Text, cap: Option<int>, extra: seq<(Text, Option<Text>)>): seq<Pair> {
    [(PERSON_PARAM, id)] + CapPairs(cap) + ExtraPairs(extra)
  }

  method BuildPersonNetworkUrl(id: Text, cap: Option<int>, extra: seq<(Text, Option<Text>)>) returns (url: Text)
    ensures url == PERSON_NETWORK_PATH + "?" + UrlEncode(LinkPairs(id, cap, extra))
  {
    var params: seq<Pair> := [(PERSON_PARAM, id)];
    if cap.Some? {
      params := params + [(MAX_COLLABORATORS_PARAM, Decimal(ClampInt(cap.value)))];
    }
    for i := 0 to |extra|
      invariant params == [(PERSON_PARAM, id)] + CapPairs(cap) + ExtraPairs(extra[..i])
    {
      assert extra[..i + 1][..i] == extra[..i];
      if extra[i].1.None? || extra[i].1.value == [] {
        continue;
      }
      params := params + [(extra[i].0, extra[i].1.value)];
    }
    assert extra[..|extra|] == extra;
    url := PERSON_NETWORK_PATH + "?" + UrlEncode(params);
  }

  datatype Contract = Contract(person: Option<Text>, maxCollaborators: int)

  function ParsePersonNetworkUrl(search: Option<Text>): Contract {
    var params := Params(if search.Some? then search.value else []);
    var candidate := FirstValue(params, PERSON_PARAM);
    var person := Strip(if candidate.Some? then candidate.value else []);
    Contract(if IsValidWbaId(person) then Some(person) else None,
             ClampMaxCollaborators(FirstValue(params, MAX_COLLABORATORS_PARAM)))
  }

  lemma {:induction false} ValuesConcat(a: seq<Pair>, b: seq<Pair>, key: Text)
    ensures Values(a + b, key) == Values(a, key) + Values(b, key)
  {
    if a == [] {
      assert a + b == b;
    } else {
      var head := if a[0].0 == key then [a[0].1] else [];
      assert (a + b)[1..] == a[1..] + b && (a + b)[0] == a[0];
      assert Values(a, key) == head + Values(a[1..], key);
      assert Values(a + b, key) == head + Values((a + b)[1..], key);
      hide Values;
      ValuesConcat(a[1..], b, key);
    }
  }

  /**
   The contract's round trip, for every id, cap and extra parameters: the link's query
   parses to the trimmed id when that is well formed and to no person otherwise, and to
   the clamped cap; without a cap it is what an extra parameter of that name says.  So a
   link gives back exactly its id if and only if the id is well formed and untrimmed.
   */
  lemma LinkRoundTrip(id: Text, cap: Option<int>, extra: seq<(Text, Option<Text>)>)
    ensures var r := ParsePersonNetworkUrl(Some("?" + UrlEncode(LinkPairs(id, cap, extra))));
      && r == ParsePersonNetworkUrl(Some(UrlEncode(LinkPairs(id, cap, extra))))
      && r.person == (if IsValidWbaId(Strip(id)) then Some(Strip(id)) else None)
      && (r.person == Some(id) <==> IsValidWbaId(id) && Strip(id) == id)
      && r.maxCollaborators ==
           if cap.Some? then ClampInt(cap.value)
           else ClampMaxCollaborators(FirstValue(ExtraPairs(extra), MAX_COLLABORATORS_PARAM))
  {
    hide UrlEncode, ParseQsl, StripMarks, IsValidWbaId, Strip, ClampMaxCollaborators, Values, ClampInt, Decimal;
    var pairs := LinkPairs(id, cap, extra);
    ParseUndoesEncode(pairs);
    EncodeStartsPlain(pairs);
    LinkValues(id, cap, extra);
    if cap.Some? {
      CapRoundTrip(cap.value);
    }
  }

  lemma LinkValues(id: Text, cap: Option<int>, extra: seq<(Text, Option<Text>)>)
    ensures FirstValue(LinkPairs(id, cap, extra), PERSON_PARAM) == Some(id)
    ensures FirstValue(LinkPairs(id, cap, extra), MAX_COLLABORATORS_PARAM) ==
      if cap.Some? then Some(Decimal(ClampInt(cap.value))) else FirstValue(ExtraPairs(extra), MAX_COLLABORATORS_PARAM)
  {
    hide ExtraPairs, Decimal, ClampInt;
    var head: seq<Pair> := [(PERSON_PARAM, id)];
    ValuesConcat(head, CapPairs(cap), PERSON_PARAM);
    ValuesConcat(head + CapPairs(cap), ExtraPairs(extra), PERSON_PARAM);
    ValuesConcat(head, CapPairs(cap), MAX_COLLABORATORS_PARAM);
    ValuesConcat(head + CapPairs(cap), ExtraPairs(extra), MAX_COLLABORATORS_PARAM);
    assert |PERSON_PARAM| == 6 && |MAX_COLLABORATORS_PARAM| == 17;
    assert Values(head, PERSON_PARAM) == [id] && Values(head, MAX_COLLABORATORS_PARAM) == [];
    assert cap.Some? ==> Values(CapPairs(cap), MAX_COLLABORATORS_PARAM) == [Decimal(ClampInt(cap.value))];
  }

  // ---------------------------------------------------------- The search part

  /** Distinct keys in order of first occurrence: the order of the dictionary `parse_qs` returns. */
  function KeysOf(pairs: seq<Pair>): seq<Text> {
    if pairs == [] then []
    else
      var ks := KeysOf(pairs[..|pairs| - 1]);
      if pairs[|pairs| - 1].0 in ks then ks else ks + [pairs[|pairs| - 1].0]
  }

  function WithValues(key: Text, values: seq<Text>): seq<Pair> {
    seq(|values|, i requires 0 <= i < |values| => (key, values[i]))
  }

  /** What the loop over the keys has appended. */
  function Rewritten(pairs: seq<Pair>, keys: seq<Text>, person: Option<Text>): seq<Pair> {
    if keys == [] then []
    else
      Rewritten(pairs, keys[..|keys| - 1], person) + Turn(pairs, keys[|keys| - 1], person)
  }

  /** What one key becomes. */
  function Turn(pairs: seq<Pair>, key: Text, person: Option<Text>): seq<Pair> {
    if key != PERSON_PARAM then WithValues(key, Values(pairs, key))
    else if person.Some? then [(key, person.value)] else []
  }

  function NewPairs(pairs: seq<Pair>, person: Option<Text>): seq<Pair> {
    Rewritten(pairs, KeysOf(pairs), person)
    + if person.Some? && PERSON_PARAM !in KeysOf(pairs) then [(PERSON_PARAM, person.value)] else []
  }

  /** An empty text counts as none. */
  function NonEmpty(value: Option<Text>): Option<Text> { if value == Some([]) then None else value }

  function Search(pairs: seq<Pair>): Text { if pairs == [] then [] else "?" + UrlEncode(pairs) }

  function Searched(search: Option<Text>, id: Option<Text>): Option<Text> {
    var pairs := Params(if search.Some? then search.value else []);
    if NonEmpty(FirstValue(pairs, PERSON_PARAM)) == NonEmpty(id) then None
    else Some(Search(NewPairs(pairs, NonEmpty(id))))
  }

  method AppendValues(pairs: seq<Pair>, key: Text, values: seq<Text>) returns (r: seq<Pair>)
    ensures r == pairs + WithValues(key, values)
  {
    r := pairs;
    for i := 0 to |values|
      invariant r == pairs + WithValues(key, values)[..i]
    {
      r := r + [(key, values[i])];
    }
    assert WithValues(key, values)[..|values|] == WithValues(key, values);
  }

  method SearchWithPerson(search: Option<Text>, id: Option<Text>) returns (r: Option<Text>)
    ensures r == Searched(search, id)
  {
    hide Values, WithValues, KeysOf, Params, UrlEncode;
    var current := Params(if search.Some? then search.value else []);
    var person := NonEmpty(id);
    if NonEmpty(FirstValue(current, PERSON_PARAM)) == person {
      return None;
    }
    var pairs: seq<Pair> := [];
    var written := false;
    var keys := KeysOf(current);
    for k := 0 to |keys|
      invariant pairs == Rewritten(current, keys[..k], person)
      invariant written <==> person.Some? && PERSON_PARAM in keys[..k]
    {
      var key := keys[k];
      assert keys[..k + 1][..k] == keys[..k];
      assert keys[..k + 1] == keys[..k] + [key];
      if key == PERSON_PARAM {
        if person.Some? {
          pairs := pairs + [(key, person.value)];
          written := true;
        }
        continue;
      }
      pairs := AppendValues(pairs, key, Values(current, key));
    }
    assert keys[..|keys|] == keys;
    if person.Some? && !written {
      pairs := pairs + [(PERSON_PARAM, person.value)];
    }
    assert pairs == NewPairs(current, person) by {
      assert Rewritten(current, keys, person) + [] == Rewritten(current, keys, person);
    }
    r := Some(Search(pairs));
  }

  lemma {:induction false} KeysMeaning(pairs: seq<Pair>)
    ensures forall k :: k in KeysOf(pairs) <==> Values(pairs, k) != []
    ensures forall i, j :: 0 <= i < j < |KeysOf(pairs)| ==> KeysOf(pairs)[i] != KeysOf(pairs)[j]
    decreases |pairs|
  {
    if pairs != [] {
      var rest, last := pairs[..|pairs| - 1], pairs[|pairs| - 1];
      KeysMeaning(rest);
      assert pairs == rest + [last];
      forall k ensures k in KeysOf(pairs) <==> Values(pairs, k) != [] {
        ValuesConcat(rest, [last], k);
      }
    }
  }

  lemma {:induction false} ValuesOfWithValues(key: Text, values: seq<Text>, k: Text)
    ensures Values(WithValues(key, values), k) == if k == key then values else []
    decreases |values|
  {
    if values != [] {
      ValuesOfWithValues(key, values[1..], k);
      assert WithValues(key, values)[1..] == WithValues(key, values[1..]);
      assert values == [values[0]] + values[1..];
    }
  }

  /** The last key of a rewrite, apart from the keys before it. */
  lemma RewrittenStep(pairs: seq<Pair>, keys: seq<Text>, person: Option<Text>)
    requires forall i, j :: 0 <= i < j < |keys| ==> keys[i] != keys[j]
    ensures keys == [] ==> Rewritten(pairs, keys, person) == []
    ensures keys != [] ==>
      var rest, key := keys[..|keys| - 1], keys[|keys| - 1];
      && Rewritten(pairs, keys, person) == Rewritten(pairs, rest, person) + Turn(pairs, key, person)
      && key !in rest && keys == rest + [key]
  {
    hide Turn;
  }

  lemma NothingThere(k: Text)
    ensures Values([], k) == [] && KeysOf([]) == []
  {
  }

  lemma {:induction false} RewrittenValues(pairs: seq<Pair>, keys: seq<Text>, person: Option<Text>, k: Text)
    requires forall i, j :: 0 <= i < j < |keys| ==> keys[i] != keys[j]
    ensures Values(Rewritten(pairs, keys, person), k) ==
      if k !in keys then [] else if k != PERSON_PARAM then Values(pairs, k) else if person.Some? then [person.value] else []
    decreases |keys|
  {
    hide Values, Turn, Rewritten;
    RewrittenStep(pairs, keys, person);
    NothingThere(k);
    if keys != [] {
      var rest, key := keys[..|keys| - 1], keys[|keys| - 1];
      RewrittenValues(pairs, rest, person, k);
      ValuesConcat(Rewritten(pairs, rest, person), Turn(pairs, key, person), k);
      TurnValues(pairs, key, person, k);
    }
  }

  lemma TurnValues(pairs: seq<Pair>, key: Text, person: Option<Text>, k: Text)
    ensures Values(Turn(pairs, key, person), k) ==
      if k != key then [] else if k != PERSON_PARAM then Values(pairs, k) else if person.Some? then [person.value] else []
  {
    if key != PERSON_PARAM {
      ValuesOfWithValues(key, Values(pairs, key), k);
    } else if person.Some? {
      ValuesOfWithValues(key, [person.value], k);
      assert WithValues(key, [person.value]) == [(key, person.value)];
    }
  }

  /** The values of every key after a rewrite. */
  lemma NewValues(pairs: seq<Pair>, person: Option<Text>, k: Text)
    ensures Values(NewPairs(pairs, person), k) ==
      if k != PERSON_PARAM then Values(pairs, k) else if person.Some? then [person.value] else []
  {
    hide Rewritten, KeysOf, Values;
    KeysMeaning(pairs);
    RewrittenValues(pairs, KeysOf(pairs), person, k);
    var tail := if person.Some? && PERSON_PARAM !in KeysOf(pairs) then [(PERSON_PARAM, person.value)] else [];
    ValuesConcat(Rewritten(pairs, KeysOf(pairs), person), tail, k);
    OneValue(tail, k);
  }

  lemma OneValue(tail: seq<Pair>, k: Text)
    requires |tail| <= 1
    ensures Values(tail, k) == if tail != [] && tail[0].0 == k then [tail[0].1] else []
  {
  }

  /** The key order of what a rewrite produces: the old one, a new person last. */
  lemma {:induction false} RewrittenKeys(pairs: seq<Pair>, keys: seq<Text>, person: Option<Text>)
    requires forall i, j :: 0 <= i < j < |keys| ==> keys[i] != keys[j]
    requires forall k :: k in keys ==> Values(pairs, k) != []
    ensures KeysOf(Rewritten(pairs, keys, person)) == if person.Some? then keys else Others(keys)
    decreases |keys|
  {
    hide Values, KeysOf, Turn, Rewritten, Others;
    RewrittenStep(pairs, keys, person);
    NothingThere([]);
    OthersStep(keys);
    if keys != [] {
      var rest, key := keys[..|keys| - 1], keys[|keys| - 1];
      RewrittenKeys(pairs, rest, person);
      OthersMeaning(rest);
      TurnKeys(Rewritten(pairs, rest, person), pairs, key, person);
    }
  }

  lemma OthersStep(keys: seq<Text>)
    ensures keys == [] ==> Others(keys) == []
    ensures keys != [] ==>
      Others(keys) == Others(keys[..|keys| - 1]) + if keys[|keys| - 1] == PERSON_PARAM then [] else [keys[|keys| - 1]]
  {
  }

  lemma TurnKeys(before: seq<Pair>, pairs: seq<Pair>, key: Text, person: Option<Text>)
    requires Values(pairs, key) != [] && key !in KeysOf(before)
    ensures KeysOf(before + Turn(pairs, key, person)) ==
      KeysOf(before) + if key != PERSON_PARAM || person.Some? then [key] else []
  {
    hide Values, KeysOf;
    if key != PERSON_PARAM {
      KeysAppendOne(before, key, Values(pairs, key));
    } else if person.Some? {
      KeysAppendOne(before, key, [person.value]);
      assert WithValues(key, [person.value]) == [(key, person.value)];
    } else {
      assert before + [] == before;
    }
  }

  /** The keys but for the person. */
  function Others(keys: seq<Text>): seq<Text> {
    if keys == [] then []
    else Others(keys[..|keys| - 1]) + if keys[|keys| - 1] == PERSON_PARAM then [] else [keys[|keys| - 1]]
  }

  lemma {:induction false} OthersMeaning(keys: seq<Text>)
    ensures forall k :: k in Others(keys) <==> k in keys && k != PERSON_PARAM
  {
    if keys != [] {
      OthersMeaning(keys[..|keys| - 1]);
      assert keys == keys[..|keys| - 1] + [keys[|keys| - 1]];
    }
  }

  lemma {:induction false} KeysAppendOne(pairs: seq<Pair>, key: Text, values: seq<Text>)
    requires values != []
    ensures KeysOf(pairs + WithValues(key, values)) == if key in KeysOf(pairs) then KeysOf(pairs) else KeysOf(pairs) + [key]
    decreases |values|
  {
    var all := pairs + WithValues(key, values);
    var rest := values[..|values| - 1];
    assert all[..|all| - 1] == pairs + WithValues(key, rest);
    assert all[|all| - 1] == (key, values[|values| - 1]);
    if rest != [] {
      KeysAppendOne(pairs, key, rest);
    } else {
      assert pairs + WithValues(key, rest) == pairs;
    }
  }

  /**
   The law of `search_with_person`.  It returns None exactly when the person is already
   the one asked for.  Otherwise the new search parses to one person, the one asked for,
   or to none; every other key keeps its values and their order; the other keys keep
   their order; and asking again returns None.
   */
  lemma SearchSetsPerson(search: Option<Text>, id: Option<Text>)
    ensures var pairs := Params(if search.Some? then search.value else []);
      var now := FirstValue(pairs, "person");
      Searched(search, id).None? <==>
        if id.Some? && id.value != [] then now == id else now.None? || now.value == []
    ensures Searched(search, id).Some? ==>
      var pairs := Params(if search.Some? then search.value else []);
      var after := Params(Searched(search, id).value);
      && Values(after, "person") == (if id.Some? && id.value != [] then [id.value] else [])
      && (forall k :: k != "person" ==> Values(after, k) == Values(pairs, k))
      && Others(KeysOf(after)) == Others(KeysOf(pairs))
      && (if after == [] then Searched(search, id) == Some([]) else Searched(search, id).value[..1] == "?")
      && Searched(Searched(search, id), id).None?
  {
    hide UrlEncode, ParseQsl, StripMarks, Values, KeysOf, Rewritten, NewPairs, Others;
    if Searched(search, id).Some? {
      var pairs := Params(if search.Some? then search.value else []);
      var renewed := NewPairs(pairs, NonEmpty(id));
      SearchParses(renewed);
      forall k ensures Values(renewed, k) ==
        if k != PERSON_PARAM then Values(pairs, k) else if NonEmpty(id).Some? then [id.value] else []
      {
        NewValues(pairs, NonEmpty(id), k);
      }
      NewKeys(pairs, NonEmpty(id));
    }
  }

  lemma SearchParses(pairs: seq<Pair>)
    ensures Params(Search(pairs)) == pairs
  {
    ParseUndoesEncode(pairs);
    EncodeStartsPlain(pairs);
    assert UrlEncode([]) == [];
  }

  lemma NewKeys(pairs: seq<Pair>, person: Option<Text>)
    ensures Others(KeysOf(NewPairs(pairs, person))) == Others(KeysOf(pairs))
  {
    hide Rewritten, Values;
    KeysMeaning(pairs);
    var keys := KeysOf(pairs);
    RewrittenKeys(pairs, keys, person);
    OthersTwice(keys);
    var before := Rewritten(pairs, keys, person);
    if person.Some? && PERSON_PARAM !in keys {
      KeysAppendOne(before, PERSON_PARAM, [person.value]);
      assert WithValues(PERSON_PARAM, [person.value]) == [(PERSON_PARAM, person.value)];
      assert (keys + [PERSON_PARAM])[..|keys|] == keys;
    } else {
      assert before + [] == before;
    }
  }

  lemma {:induction false} OthersTwice(keys: seq<Text>)
    ensures Others(Others(keys)) == Others(keys)
  {
    if keys != [] {
      var rest, last := keys[..|keys| - 1], keys[|keys| - 1];
      OthersTwice(rest);
      if last != PERSON_PARAM {
        var others := Others(rest) + [last];
        assert others[..|others| - 1] == Others(rest) && others[|others| - 1] == last;
        assert Others(others) == Others(others[..|others| - 1]) + [last];
        assert Others(keys) == others;
      } else {
        assert Others(keys) == Others(rest);
      }
    }
  }

  // ------------------------------------------------- The order of parameters

  /** The parameters but for the person. */
  function OtherPairs(pairs: seq<Pair>): seq<Pair> {
    if pairs == [] then []
    else OtherPairs(pairs[..|pairs| - 1]) + if pairs[|pairs| - 1].0 == PERSON_PARAM then [] else [pairs[|pairs| - 1]]
  }

  /** Parameters of one key stand together. */
  predicate Grouped(pairs: seq<Pair>) {
    pairs == [] ||
    var rest, key := pairs[..|pairs| - 1], pairs[|pairs| - 1].0;
    Grouped(rest) && (key in KeysOf(rest) ==> rest != [] && rest[|rest| - 1].0 == key)
  }

  lemma {:induction false} OtherKeys(pairs: seq<Pair>)
    ensures KeysOf(OtherPairs(pairs)) == Others(KeysOf(pairs))
    decreases |pairs|
  {
    if pairs != [] {
      var rest, last := pairs[..|pairs| - 1], pairs[|pairs| - 1];
      var others, keys := OtherPairs(rest), KeysOf(rest);
      OtherKeys(rest);
      OthersMeaning(keys);
      assert (keys + [last.0])[..|keys|] == keys;
      if last.0 == PERSON_PARAM {
        assert OtherPairs(pairs) == others;
      } else {
        assert (others + [last])[..|others|] == others;
      }
    }
  }

  lemma {:induction false} OtherValues(pairs: seq<Pair>, k: Text)
    ensures Values(OtherPairs(pairs), k) == if k == PERSON_PARAM then [] else Values(pairs, k)
    decreases |pairs|
  {
    if pairs != [] {
      hide Values;
      var rest, last := pairs[..|pairs| - 1], pairs[|pairs| - 1];
      OtherValues(rest, k);
      assert pairs == rest + [last];
      ValuesConcat(rest, [last], k);
      OneValue([last], k);
      if last.0 == PERSON_PARAM {
        assert OtherPairs(pairs) == OtherPairs(rest);
      } else {
        ValuesConcat(OtherPairs(rest), [last], k);
      }
    } else {
      assert Values([], k) == [];
    }
  }

  lemma {:induction false} OtherGrouped(pairs: seq<Pair>)
    requires Grouped(pairs)
    ensures Grouped(OtherPairs(pairs))
    decreases |pairs|
  {
    if pairs != [] {
      hide KeysOf, Others;
      var rest, last := pairs[..|pairs| - 1], pairs[|pairs| - 1];
      var others := OtherPairs(rest);
      OtherGrouped(rest);
      if last.0 == PERSON_PARAM {
        assert OtherPairs(pairs) == others;
      } else {
        OtherKeys(rest);
        OthersMeaning(KeysOf(rest));
        assert (others + [last])[..|others|] == others;
      }
    }
  }

  lemma GroupedStep(pairs: seq<Pair>, p: Pair)
    requires Grouped(pairs) && (p.0 in KeysOf(pairs) ==> pairs != [] && pairs[|pairs| - 1].0 == p.0)
    ensures Grouped(pairs + [p])
  {
    var all := pairs + [p];
    assert all[..|all| - 1] == pairs && all[|all| - 1] == p;
  }

  lemma {:induction false} BlockKeepsGrouped(pairs: seq<Pair>, key: Text, values: seq<Text>)
    requires Grouped(pairs) && key !in KeysOf(pairs)
    ensures Grouped(pairs + WithValues(key, values))
    decreases |values|
  {
    hide KeysOf, Grouped;
    if values == [] {
      assert pairs + WithValues(key, values) == pairs;
    } else {
      var rest, last := values[..|values| - 1], values[|values| - 1];
      BlockKeepsGrouped(pairs, key, rest);
      var before := pairs + WithValues(key, rest);
      assert rest == [] ==> before == pairs;
      GroupedStep(before, (key, last));
      assert before + [(key, last)] == pairs + WithValues(key, values);
    }
  }

  lemma TurnGrouped(before: seq<Pair>, pairs: seq<Pair>, key: Text, person: Option<Text>)
    requires Grouped(before) && key !in KeysOf(before)
    ensures Grouped(before + Turn(pairs, key, person))
  {
    hide Values, KeysOf, Grouped;
    if key != PERSON_PARAM {
      BlockKeepsGrouped(before, key, Values(pairs, key));
    } else if person.Some? {
      BlockKeepsGrouped(before, key, [person.value]);
      assert WithValues(key, [person.value]) == [(key, person.value)];
    } else {
      assert before + [] == before;
    }
  }

  /** What a rewrite produces is grouped. */
  lemma {:induction false} RewrittenGrouped(pairs: seq<Pair>, keys: seq<Text>, person: Option<Text>)
    requires forall i, j :: 0 <= i < j < |keys| ==> keys[i] != keys[j]
    requires forall k :: k in keys ==> Values(pairs, k) != []
    ensures Grouped(Rewritten(pairs, keys, person))
    decreases |keys|
  {
    hide Values, KeysOf, Turn, Rewritten, Others, Grouped;
    RewrittenStep(pairs, keys, person);
    NoneGrouped();
    if keys != [] {
      var rest, key := keys[..|keys| - 1], keys[|keys| - 1];
      RewrittenGrouped(pairs, rest, person);
      RewrittenKeys(pairs, rest, person);
      OthersMeaning(rest);
      TurnGrouped(Rewritten(pairs, rest, person), pairs, key, person);
    }
  }

  lemma NoneGrouped()
    ensures Grouped([])
  {
  }

  lemma NewGrouped(pairs: seq<Pair>, person: Option<Text>)
    ensures Grouped(NewPairs(pairs, person))
  {
    hide Rewritten, Values, KeysOf, Grouped;
    KeysMeaning(pairs);
    var keys := KeysOf(pairs);
    RewrittenGrouped(pairs, keys, person);
    RewrittenKeys(pairs, keys, person);
    OthersMeaning(keys);
    var before := Rewritten(pairs, keys, person);
    if person.Some? && PERSON_PARAM !in keys {
      BlockKeepsGrouped(before, PERSON_PARAM, [person.value]);
      assert WithValues(PERSON_PARAM, [person.value]) == [(PERSON_PARAM, person.value)];
    } else {
      assert before + [] == before;
    }
  }

  lemma {:induction false} LastKey(pairs: seq<Pair>)
    requires Grouped(pairs) && pairs != []
    ensures KeysOf(pairs) != [] && KeysOf(pairs)[|KeysOf(pairs)| - 1] == pairs[|pairs| - 1].0
    decreases |pairs|
  {
    var rest := pairs[..|pairs| - 1];
    if pairs[|pairs| - 1].0 in KeysOf(rest) {
      LastKey(rest);
    }
  }

  ghost predicate SameParameters(a: seq<Pair>, b: seq<Pair>) {
    KeysOf(a) == KeysOf(b) && forall k :: Values(a, k) == Values(b, k)
  }

  function Init<T>(s: seq<T>): seq<T> { if s == [] then [] else s[..|s| - 1] }

  /** Taking the last parameter off, in terms of the keys and values before. */
  lemma WithoutLast(a: seq<Pair>)
    requires a != []
    ensures var rest, last, values := a[..|a| - 1], a[|a| - 1], Values(a, a[|a| - 1].0);
      && values != [] && values[|values| - 1] == last.1
      && (forall k :: Values(rest, k) == if k == last.0 then Init(values) else Values(a, k))
      && KeysOf(rest) == if |values| == 1 then Init(KeysOf(a)) else KeysOf(a)
  {
    var rest, last := a[..|a| - 1], a[|a| - 1];
    KeysMeaning(rest);
    assert a == rest + [last];
    forall k ensures Values(a, k) == if k == last.0 then Values(rest, k) + [last.1] else Values(rest, k) {
      hide Values;
      ValuesConcat(rest, [last], k);
      OneValue([last], k);
      assert Values(rest, k) + [] == Values(rest, k);
    }
    assert Init(Values(rest, last.0) + [last.1]) == Values(rest, last.0);
    assert Init(KeysOf(rest) + [last.0]) == KeysOf(rest);
  }

  lemma NoKeysNoPairs(a: seq<Pair>)
    ensures KeysOf(a) == [] <==> a == []
  {
  }

  lemma SameLast(a: seq<Pair>, b: seq<Pair>)
    requires Grouped(a) && Grouped(b) && SameParameters(a, b) && a != []
    ensures b != [] && a[|a| - 1] == b[|b| - 1] && SameParameters(a[..|a| - 1], b[..|b| - 1])
  {
    hide Values, KeysOf, Grouped, Init;
    NoKeysNoPairs(a);
    NoKeysNoPairs(b);
    LastKey(a);
    LastKey(b);
    WithoutLast(a);
    WithoutLast(b);
  }

  /** Grouped parameters are determined by the order of their keys and the values of each. */
  lemma {:induction false} GroupedDetermined(a: seq<Pair>, b: seq<Pair>)
    requires Grouped(a) && Grouped(b) && SameParameters(a, b)
    ensures a == b
    decreases |a|
  {
    if a == [] {
      NoKeysNoPairs(b);
    } else {
      hide SameParameters, KeysOf;
      SameLast(a, b);
      GroupedDetermined(a[..|a| - 1], b[..|b| - 1]);
      assert a == a[..|a| - 1] + [a[|a| - 1]] && b == b[..|b| - 1] + [b[|b| - 1]];
    }
  }

  /**
   A rewrite keeps all other parameters in order if and only if those of one key stand
   together in the search it is given; otherwise it gathers them.
   */
  lemma OrderIsKept(search: Option<Text>, id: Option<Text>)
    requires Searched(search, id).Some?
    ensures var pairs := Params(if search.Some? then search.value else []);
      OtherPairs(Params(Searched(search, id).value)) == OtherPairs(pairs) <==> Grouped(OtherPairs(pairs))
  {
    hide UrlEncode, ParseQsl, StripMarks, Values, KeysOf, NewPairs, Grouped, Others, OtherPairs;
    var pairs := Params(if search.Some? then search.value else []);
    var renewed := NewPairs(pairs, NonEmpty(id));
    SearchParses(renewed);
    NewGrouped(pairs, NonEmpty(id));
    NewKeys(pairs, NonEmpty(id));
    forall k ensures Values(OtherPairs(renewed), k) == Values(OtherPairs(pairs), k) {
      OtherValues(renewed, k);
      OtherValues(pairs, k);
      NewValues(pairs, NonEmpty(id), k);
    }
    OtherKeys(renewed);
    OtherKeys(pairs);
    OtherGrouped(renewed);
    if Grouped(OtherPairs(pairs)) {
      GroupedDetermined(OtherPairs(renewed), OtherPairs(pairs));
    }
  }

  /** A key built of two colon-free parts and anything after them is well formed. */
  lemma CanonicalKeyIsValid(source: Text, kind: Text, id: Text)
    requires source != [] && kind != [] && id != [] && ':' !in source && ':' !in kind
    ensures IsValidWbaId(source + "::" + kind + "::" + id)
  {
    var rest := kind + "::" + id;
    var s := source + "::" + kind + "::" + id;
    assert s == source + "::" + rest;
    SeparatorAfter(source, rest);
    SeparatorAfter(kind, id);
    assert s[|source| + 2..] == rest;
  }

  lemma {:induction false} SeparatorAfter(head: Text, tail: Text)
    requires ':' !in head
    ensures Separator(head + "::" + tail) == |head|
  {
    var s := head + "::" + tail;
    if head != [] {
      SeparatorAfter(head[1..], tail);
      assert s[0] == head[0] && head[0] in head;
      assert s[1..] == head[1..] + "::" + tail;
    }
  }
}
