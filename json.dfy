/** The JSON text the store writes and reads back (`JSON.stringify` and `JSON.parse`), for the values
    it stores: primitives, flat objects of primitives, and arrays of flat objects. Output is compact
    (no whitespace); inside strings only `"` and `\` are escaped. The parser accepts these shapes
    (and, as `JSON.parse` does, `-0` and repeated keys, which the writer never produces); text
    outside these shapes is reported as a parse error (`None`). */
module Json {
  import opened Outcomes
  import opened Filters

  /** A JavaScript primitive as it can appear in a parsed record; `Undefined` is a missing property. */
  datatype JsValue = Undefined | Null | Bool(b: bool) | Num(n: int) | Str(s: string)

  /** A property of an object: its key and its value, in the order the object lists them. */
  type Member = (string, JsValue)

  predicate IsDigit(c: char) { '0' <= c <= '9' }

  /** `JSON.stringify` leaves out properties whose value is `undefined`. */
  predicate IsDefined(m: Member) { !m.1.Undefined? }

  predicate AllDefined(ms: seq<Member>) { forall i :: 0 <= i < |ms| ==> IsDefined(ms[i]) }

  // ---------------------------------------------------------------- numbers

  function DigitChar(d: nat): (c: char)
    requires d < 10
    ensures IsDigit(c) && c as int - '0' as int == d
  {
    ('0' as int + d) as char
  }

  /** The decimal digits of `n`, most significant first: a leading zero only for zero itself. */
  function Digits(n: nat): (r: string)
    ensures |r| >= 1
    ensures forall i :: 0 <= i < |r| ==> IsDigit(r[i])
    ensures r[0] == '0' <==> n == 0
    decreases n
  {
    if n < 10 then [DigitChar(n)] else Digits(n / 10) + [DigitChar(n % 10)]
  }

  /** The number a string of decimal digits denotes. */
  function DigitsValue(ds: string): nat
    requires forall i :: 0 <= i < |ds| ==> IsDigit(ds[i])
  {
    if ds == [] then 0
    else
      assert IsDigit(ds[|ds| - 1]);
      DigitsValue(ds[..|ds| - 1]) * 10 + (ds[|ds| - 1] as int - '0' as int)
  }

  lemma {:induction false} DigitsRoundTrip(n: nat)
    ensures DigitsValue(Digits(n)) == n
    decreases n
  {
    if n >= 10 {
      var ds := Digits(n);
      assert ds[..|ds| - 1] == Digits(n / 10);
      DigitsRoundTrip(n / 10);
    }
  }

  /** The length of the run of digits that `s` starts with. */
  function DigitRun(s: string): (k: nat)
    ensures k <= |s|
    ensures forall i :: 0 <= i < k ==> IsDigit(s[i])
    ensures k < |s| ==> !IsDigit(s[k])
  {
    if s != [] && IsDigit(s[0]) then 1 + DigitRun(s[1..]) else 0
  }

  /** Text that cannot continue a number just written. */
  predicate EndsNumber(rest: string) { rest == [] || !IsDigit(rest[0]) }

  lemma {:induction false} DigitRunOf(ds: string, rest: string)
    requires forall i :: 0 <= i < |ds| ==> IsDigit(ds[i])
    requires EndsNumber(rest)
    ensures DigitRun(ds + rest) == |ds|
  {
    if ds != [] {
      assert (ds + rest)[1..] == ds[1..] + rest;
      DigitRunOf(ds[1..], rest);
    }
  }

  function EncodeNumber(n: int): string
  {
    if n < 0 then ['-'] + Digits(-n) else Digits(n)
  }

  /** Reads a run of decimal digits; as in JSON, a run of more than one digit may not
      start with zero. */
  function ParseMagnitude(t: string): (r: Option<(nat, string)>)
    ensures r.Some? ==> |r.value.1| < |t|
  {
    var k := DigitRun(t);
    if k == 0 || (k > 1 && t[0] == '0') then None
    else Some((DigitsValue(t[..k]), t[k..]))
  }

  /** Reads an optionally negated run of decimal digits. */
  function ParseNumber(s: string): (r: Option<(int, string)>)
    ensures r.Some? ==> |r.value.1| < |s|
  {
    var negative := |s| > 0 && s[0] == '-';
    var t := if negative then s[1..] else s;
    match ParseMagnitude(t)
    case None => None
    case Some(p) => Some((if negative then -(p.0 as int) else p.0, p.1))
  }

  /** A run of digits followed by text that cannot continue it splits back into the two. */
  lemma {:induction false} DigitsThenRest(ds: string, rest: string)
    requires |ds| >= 1 && forall i :: 0 <= i < |ds| ==> IsDigit(ds[i])
    requires EndsNumber(rest)
    ensures (ds + rest)[0] != '-' && DigitRun(ds + rest) == |ds|
    ensures (ds + rest)[..|ds|] == ds && (ds + rest)[|ds|..] == rest
  {
    DigitRunOf(ds, rest);
  }

  /** A number written with a leading zero, such as `007`, is not read. */
  lemma LeadingZeroRejected(s: string)
    requires |s| >= 2 && s[0] == '0' && IsDigit(s[1])
    ensures ParseNumber(s) == None
    ensures ParseNumber(['-'] + s) == None
  {
    assert (['-'] + s)[1..] == s;
  }

  /** The digits of `m`, followed by text that cannot continue them, are read back as `m`. */
  lemma MagnitudeRoundTrip(m: nat, rest: string)
    requires EndsNumber(rest)
    ensures (Digits(m) + rest)[0] != '-'
    ensures ParseMagnitude(Digits(m) + rest) == Some((m, rest))
  {
    var ds := Digits(m);
    DigitsRoundTrip(m);
    DigitsThenRest(ds, rest);
    assert (ds + rest)[0] == ds[0];
  }

  /** A sign in front of a concatenation. */
  lemma Signed(sign: char, a: string, b: string)
    ensures [sign] + a + b == [sign] + (a + b)
    ensures ([sign] + (a + b))[0] == sign && ([sign] + (a + b))[1..] == a + b
  {
  }

  lemma NumberRoundTrip(n: int, rest: string)
    requires EndsNumber(rest)
    ensures ParseNumber(EncodeNumber(n) + rest) == Some((n, rest))
  {
    var m: nat := if n < 0 then -n else n;
    MagnitudeRoundTrip(m, rest);
    Signed('-', Digits(m), rest);
    hide Digits, ParseMagnitude, DigitRun, DigitsValue, EndsNumber;
  }

  // ---------------------------------------------------------------- strings

  /** Backslash-escapes quotes and backslashes. */
  function Escape(s: string): string
  {
    if s == [] then []
    else (if s[0] == '"' || s[0] == '\\' then ['\\', s[0]] else [s[0]]) + Escape(s[1..])
  }

  function EncodeString(s: string): string
  {
    ['"'] + Escape(s) + ['"']
  }

  /** Reads the characters of a string literal whose opening quote has been consumed,
      up to and including its closing quote; the only escapes read are the two that
      `Escape` writes, any other backslash sequence makes the text unreadable. */
  function ParseStringBody(s: string): (r: Option<(string, string)>)
    ensures r.Some? ==> |r.value.1| < |s|
    decreases |s|
  {
    if s == [] then None
    else if s[0] == '"' then Some(([], s[1..]))
    else if s[0] == '\\' then
      if |s| < 2 || (s[1] != '"' && s[1] != '\\') then None
      else
        match ParseStringBody(s[2..])
        case None => None
        case Some((t, rest)) => Some(([s[1]] + t, rest))
    else
      match ParseStringBody(s[1..])
      case None => None
      case Some((t, rest)) => Some(([s[0]] + t, rest))
  }

  /** A backslash followed by anything but a quote or a backslash is not read. */
  lemma OtherEscapeRejected(s: string)
    requires |s| >= 2 && s[0] == '\\' && s[1] != '"' && s[1] != '\\'
    ensures ParseStringBody(s) == None
  {
  }

  function ParseString(s: string): (r: Option<(string, string)>)
    ensures r.Some? ==> |r.value.1| < |s|
  {
    if s != [] && s[0] == '"' then ParseStringBody(s[1..]) else None
  }

  /** What follows the opening character of a delimited text. */
  lemma Unwrap(open: char, body: string, close: char, rest: string)
    ensures ([open] + body + [close] + rest)[0] == open
    ensures ([open] + body + [close] + rest)[1..] == body + [close] + rest
  {
  }

  /** Text written in front of the rest of a string body. */
  lemma Prefixed(pre: string, a: string, q: string, rest: string)
    ensures (pre + a) + q + rest == pre + (a + q + rest)
    ensures (pre + (a + q + rest))[..|pre|] == pre
    ensures (pre + (a + q + rest))[|pre|..] == a + q + rest
  {
  }

  lemma {:induction false} StringBodyRoundTrip(s: string, rest: string)
    ensures ParseStringBody(Escape(s) + ['"'] + rest) == Some((s, rest))
  {
    if s == [] {
      assert Escape(s) + ['"'] + rest == ['"'] + rest;
    } else {
      var pre := if s[0] == '"' || s[0] == '\\' then ['\\', s[0]] else [s[0]];
      var tail := Escape(s[1..]) + ['"'] + rest;
      StringBodyRoundTrip(s[1..], rest);
      assert Escape(s) == pre + Escape(s[1..]);
      Prefixed(pre, Escape(s[1..]), ['"'], rest);
      var input := pre + tail;
      assert input[0] == pre[0];
      assert |pre| == 2 ==> input[1] == pre[1];
      assert [s[0]] + s[1..] == s;
      hide Escape;
    }
  }

  lemma StringRoundTrip(s: string, rest: string)
    ensures ParseString(EncodeString(s) + rest) == Some((s, rest))
  {
    Unwrap('"', Escape(s), '"', rest);
    StringBodyRoundTrip(s, rest);
  }

  // ---------------------------------------------------------------- primitive values

  function EncodeValue(v: JsValue): string
    requires !v.Undefined?
  {
    match v
    case Null => "null"
    case Bool(b) => if b then "true" else "false"
    case Num(n) => EncodeNumber(n)
    case Str(s) => EncodeString(s)
  }

  /** Does `s` start with the characters of `word`? */
  predicate StartsWith(s: string, word: string) { |word| <= |s| && s[..|word|] == word }

  function ParseValue(s: string): (r: Option<(JsValue, string)>)
    ensures r.Some? ==> |r.value.1| < |s| && !r.value.0.Undefined?
  {
    if StartsWith(s, "null") then Some((Null, s[4..]))
    else if StartsWith(s, "true") then Some((Bool(true), s[4..]))
    else if StartsWith(s, "false") then Some((Bool(false), s[5..]))
    else if s != [] && s[0] == '"' then
      match ParseString(s)
      case None => None
      case Some((t, rest)) => Some((Str(t), rest))
    else
      match ParseNumber(s)
      case None => None
      case Some((n, rest)) => Some((Num(n), rest))
  }

  /** A text whose first character differs from that of `word` does not start with it. */
  lemma NotStartsWith(s: string, word: string)
    requires s != [] && word != [] && s[0] != word[0]
    ensures !StartsWith(s, word)
  {
    if |word| <= |s| {
      assert s[..|word|][0] == s[0];
    }
  }

  lemma ValueRoundTrip(v: JsValue, rest: string)
    requires !v.Undefined?
    requires EndsNumber(rest)
    ensures ParseValue(EncodeValue(v) + rest) == Some((v, rest))
  {
    var input := EncodeValue(v) + rest;
    match v
    case Null =>
      assert input[..4] == "null" && input[4..] == rest;
    case Bool(b) =>
      if b {
        assert input[..4] == "true" && input[4..] == rest;
        NotStartsWith(input, "null");
      } else {
        assert input[..5] == "false" && input[5..] == rest;
        NotStartsWith(input, "null");
        NotStartsWith(input, "true");
      }
    case Num(n) =>
      NumberRoundTrip(n, rest);
      assert input[0] == '-' || IsDigit(input[0]);
      NotStartsWith(input, "null");
      NotStartsWith(input, "true");
      NotStartsWith(input, "false");
    case Str(t) =>
      StringRoundTrip(t, rest);
      assert input[0] == '"';
      NotStartsWith(input, "null");
      NotStartsWith(input, "true");
      NotStartsWith(input, "false");
  }

  // ---------------------------------------------------------------- flat objects

  function EncodeMember(m: Member): string
    requires IsDefined(m)
  {
    EncodeString(m.0) + [':'] + EncodeValue(m.1)
  }

  /** The members of an object, separated by commas. */
  function EncodeMembers(ms: seq<Member>): string
    requires AllDefined(ms)
  {
    if ms == [] then []
    else if |ms| == 1 then EncodeMember(ms[0])
    else EncodeMember(ms[0]) + [','] + EncodeMembers(ms[1..])
  }

  function ObjectText(ms: seq<Member>): string
    requires AllDefined(ms)
  {
    ['{'] + EncodeMembers(ms) + ['}']
  }

  /** `JSON.stringify` of a flat object: its defined properties, in order. */
  function Stringify(ms: seq<Member>): string
  {
    ObjectText(Filter(IsDefined, ms))
  }

  function ParseMember(s: string): (r: Option<(Member, string)>)
    ensures r.Some? ==> |r.value.1| < |s| && IsDefined(r.value.0)
  {
    match ParseString(s)
    case None => None
    case Some((key, rest)) =>
      if rest != [] && rest[0] == ':' then
        match ParseValue(rest[1..])
        case None => None
        case Some((v, rest')) => Some(((key, v), rest'))
      else None
  }

  /** Reads `member (',' member)* '}'`. */
  function ParseMemberList(s: string): (r: Option<(seq<Member>, string)>)
    ensures r.Some? ==> |r.value.1| < |s| && AllDefined(r.value.0)
    decreases |s|
  {
    match ParseMember(s)
    case None => None
    case Some((m, rest)) =>
      if rest != [] && rest[0] == ',' then
        match ParseMemberList(rest[1..])
        case None => None
        case Some((ms, rest')) => Some(([m] + ms, rest'))
      else if rest != [] && rest[0] == '}' then Some(([m], rest[1..]))
      else None
  }

  function ParseObject(s: string): (r: Option<(seq<Member>, string)>)
    ensures r.Some? ==> |r.value.1| < |s| && AllDefined(r.value.0)
  {
    if s == [] || s[0] != '{' then None
    else if |s| >= 2 && s[1] == '}' then Some(([], s[2..]))
    else ParseMemberList(s[1..])
  }

  lemma MemberRoundTrip(m: Member, rest: string)
    requires IsDefined(m)
    requires EndsNumber(rest)
    ensures ParseMember(EncodeMember(m) + rest) == Some((m, rest))
  {
    var after := [':'] + EncodeValue(m.1) + rest;
    assert EncodeMember(m) + rest == EncodeString(m.0) + after;
    StringRoundTrip(m.0, after);
    assert after[1..] == EncodeValue(m.1) + rest;
    ValueRoundTrip(m.1, rest);
  }

  /** Regrouping a text made of a first item, a separator, the other items, a closing
      character and what follows. */
  lemma Regroup(first: string, sep: char, others: string, close: char, rest: string)
    ensures first + [sep] + others + [close] + rest == first + ([sep] + (others + [close] + rest))
  {
  }

  /** A last member followed by the closing brace reads back as a one-member list. */
  lemma MemberListLast(m: Member, rest: string)
    requires IsDefined(m)
    ensures ParseMemberList(EncodeMembers([m]) + ['}'] + rest) == Some(([m], rest))
  {
    assert EncodeMembers([m]) + ['}'] + rest == EncodeMember(m) + (['}'] + rest);
    MemberRoundTrip(m, ['}'] + rest);
    assert (['}'] + rest)[0] == '}' && (['}'] + rest)[1..] == rest;
  }

  /** A member and a comma in front of a member list that reads back make a longer list that
      reads back. */
  lemma MemberListCons(m: Member, ms: seq<Member>, rest: string)
    requires IsDefined(m) && |ms| >= 1 && AllDefined(ms)
    requires ParseMemberList(EncodeMembers(ms) + ['}'] + rest) == Some((ms, rest))
    ensures AllDefined([m] + ms)
    ensures ParseMemberList(EncodeMembers([m] + ms) + ['}'] + rest) == Some(([m] + ms, rest))
  {
    var more := EncodeMembers(ms) + ['}'] + rest;
    assert ([m] + ms)[1..] == ms;
    assert EncodeMembers([m] + ms) == EncodeMember(m) + [','] + EncodeMembers(ms);
    Regroup(EncodeMember(m), ',', EncodeMembers(ms), '}', rest);
    MemberRoundTrip(m, [','] + more);
    assert ([','] + more)[1..] == more;
  }

  lemma {:induction false} MemberListRoundTrip(ms: seq<Member>, rest: string)
    requires |ms| >= 1 && AllDefined(ms)
    ensures ParseMemberList(EncodeMembers(ms) + ['}'] + rest) == Some((ms, rest))
  {
    if |ms| == 1 {
      assert [ms[0]] == ms;
      MemberListLast(ms[0], rest);
    } else {
      MemberListRoundTrip(ms[1..], rest);
      MemberListCons(ms[0], ms[1..], rest);
      assert [ms[0]] + ms[1..] == ms;
    }
  }

  lemma ObjectRoundTrip(ms: seq<Member>, rest: string)
    requires AllDefined(ms)
    ensures ParseObject(ObjectText(ms) + rest) == Some((ms, rest))
  {
    var input := ObjectText(ms) + rest;
    if ms == [] {
      assert input == ['{', '}'] + rest;
    } else {
      Unwrap('{', EncodeMembers(ms), '}', rest);
      assert EncodeMembers(ms)[0] == '"';
      MemberListRoundTrip(ms, rest);
    }
  }

  // ---------------------------------------------------------------- arrays of flat objects

  predicate AllObjectsDefined(os: seq<seq<Member>>) { forall i :: 0 <= i < |os| ==> AllDefined(os[i]) }

  /** The objects of an array, separated by commas. */
  function EncodeObjects(os: seq<seq<Member>>): string
    requires AllObjectsDefined(os)
  {
    if os == [] then []
    else if |os| == 1 then ObjectText(os[0])
    else ObjectText(os[0]) + [','] + EncodeObjects(os[1..])
  }

  function ArrayText(os: seq<seq<Member>>): string
    requires AllObjectsDefined(os)
  {
    ['['] + EncodeObjects(os) + [']']
  }

  /** Reads `object (',' object)* ']'`. */
  function ParseObjectList(s: string): (r: Option<(seq<seq<Member>>, string)>)
    ensures r.Some? ==> |r.value.1| < |s| && AllObjectsDefined(r.value.0)
    decreases |s|
  {
    match ParseObject(s)
    case None => None
    case Some((o, rest)) =>
      if rest != [] && rest[0] == ',' then
        match ParseObjectList(rest[1..])
        case None => None
        case Some((os, rest')) => Some(([o] + os, rest'))
      else if rest != [] && rest[0] == ']' then Some(([o], rest[1..]))
      else None
  }

  function ParseArray(s: string): (r: Option<(seq<seq<Member>>, string)>)
    ensures r.Some? ==> |r.value.1| < |s| && AllObjectsDefined(r.value.0)
  {
    if s == [] || s[0] != '[' then None
    else if |s| >= 2 && s[1] == ']' then Some(([], s[2..]))
    else ParseObjectList(s[1..])
  }

  /** A last object followed by the closing bracket reads back as a one-object list. */
  lemma ObjectListLast(o: seq<Member>, rest: string)
    requires AllDefined(o)
    ensures ParseObjectList(EncodeObjects([o]) + [']'] + rest) == Some(([o], rest))
  {
    assert EncodeObjects([o]) + [']'] + rest == ObjectText(o) + ([']'] + rest);
    ObjectRoundTrip(o, [']'] + rest);
    assert ([']'] + rest)[0] == ']' && ([']'] + rest)[1..] == rest;
  }

  /** An object and a comma in front of a list that reads back make a longer list that reads back. */
  lemma ObjectListCons(o: seq<Member>, os: seq<seq<Member>>, rest: string)
    requires AllDefined(o) && |os| >= 1 && AllObjectsDefined(os)
    requires ParseObjectList(EncodeObjects(os) + [']'] + rest) == Some((os, rest))
    ensures AllObjectsDefined([o] + os)
    ensures ParseObjectList(EncodeObjects([o] + os) + [']'] + rest) == Some(([o] + os, rest))
  {
    var more := EncodeObjects(os) + [']'] + rest;
    assert ([o] + os)[1..] == os;
    assert EncodeObjects([o] + os) == ObjectText(o) + [','] + EncodeObjects(os);
    Regroup(ObjectText(o), ',', EncodeObjects(os), ']', rest);
    ObjectRoundTrip(o, [','] + more);
    assert ([','] + more)[1..] == more;
  }

  lemma {:induction false} ObjectListRoundTrip(os: seq<seq<Member>>, rest: string)
    requires |os| >= 1 && AllObjectsDefined(os)
    ensures ParseObjectList(EncodeObjects(os) + [']'] + rest) == Some((os, rest))
  {
    if |os| == 1 {
      assert [os[0]] == os;
      ObjectListLast(os[0], rest);
    } else {
      ObjectListRoundTrip(os[1..], rest);
      ObjectListCons(os[0], os[1..], rest);
      assert [os[0]] + os[1..] == os;
    }
  }

  lemma ArrayRoundTrip(os: seq<seq<Member>>, rest: string)
    requires AllObjectsDefined(os)
    ensures ParseArray(ArrayText(os) + rest) == Some((os, rest))
  {
    var input := ArrayText(os) + rest;
    if os == [] {
      assert input == ['[', ']'] + rest;
    } else {
      Unwrap('[', EncodeObjects(os), ']', rest);
      assert EncodeObjects(os)[0] == '{';
      ObjectListRoundTrip(os, rest);
    }
  }

  // ---------------------------------------------------------------- whole texts

  /** `JSON.parse` of a text holding one flat object; `None` when it throws. */
  function ParseObjectText(s: string): (r: Option<seq<Member>>)
    ensures r.Some? ==> AllDefined(r.value)
  {
    match ParseObject(s)
    case Some((ms, rest)) => if rest == [] then Some(ms) else None
    case None => None
  }

  /** `JSON.parse` of a text holding an array of flat objects; `None` when it throws or the text
      holds something else. */
  function ParseArrayText(s: string): (r: Option<seq<seq<Member>>>)
    ensures r.Some? ==> AllObjectsDefined(r.value)
  {
    match ParseArray(s)
    case Some((os, rest)) => if rest == [] then Some(os) else None
    case None => None
  }

  /** Parsing what `Stringify` wrote gives back the object without its undefined properties. */
  lemma StringifyRoundTrip(ms: seq<Member>)
    ensures Stringify(ms) != []
    ensures ParseObjectText(Stringify(ms)) == Some(Filter(IsDefined, ms))
  {
    var d := Filter(IsDefined, ms);
    ObjectRoundTrip(d, []);
    assert Stringify(ms) + [] == Stringify(ms);
  }

  /** Parsing a written array of objects gives the same objects back. */
  lemma ArrayTextRoundTrip(os: seq<seq<Member>>)
    requires AllObjectsDefined(os)
    ensures ArrayText(os) != []
    ensures ParseArrayText(ArrayText(os)) == Some(os)
  {
    ArrayRoundTrip(os, []);
    assert ArrayText(os) + [] == ArrayText(os);
  }
}
