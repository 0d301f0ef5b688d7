/** FIX text: decimal numbers, `tag=value` fields and the tokenizer (FIX 4.2 framing). */
module FixText {
  import opened Types
  import opened Decimal

  const SOH: char := 1 as char
  const MAX_FIELDS := 32
  const UINT_MAX := 0xFFFF_FFFF

  // ---- Reading numbers -----------------------------------------------------------------------

  /** How many digits a text starts with. */
  function DigitRun(s: string): (n: nat)
    ensures n <= |s| && forall i :: 0 <= i < n ==> IsDigit(s[i])
  {
    if s == [] || !IsDigit(s[0]) then 0 else 1 + DigitRun(s[1..])
  }

  datatype Number = Read(value: int, length: nat) | NotANumber | TooBig

  /** `from_chars` into a type with range `lo..hi`; only a signed type takes a minus sign. */
  function FromChars(s: string, lo: int, hi: int): (r: Number)
    ensures r.Read? ==> lo <= r.value <= hi && 0 < r.length <= |s|
  {
    var sign := if lo < 0 && s != [] && s[0] == '-' then 1 else 0;
    var n := DigitRun(s[sign..]);
    if n == 0 then NotANumber
    else
      var v := Value(s[sign..][..n]);
      var signed: int := if sign == 1 then 0 - v else v;
      if lo <= signed <= hi then Read(signed, sign + n) else TooBig
  }

  function RenderInt(n: int): string {
    if n < 0 then "-" + Render(-n) else Render(n)
  }

  lemma {:induction false} AllDigits(s: string)
    requires forall i :: 0 <= i < |s| ==> IsDigit(s[i])
    ensures DigitRun(s) == |s|
    decreases |s|
  {
    if s != [] {
      AllDigits(s[1..]);
    }
  }

  /** A number in range reads back whole. */
  lemma {:induction false} ReadRendered(n: int, lo: int, hi: int)
    requires lo <= n <= hi
    ensures FromChars(RenderInt(n), lo, hi) == Read(n, |RenderInt(n)|)
  {
    hide Render, Value, DigitRun;
    var s := RenderInt(n);
    if n < 0 {
      var d := Render(-n);
      assert s[1..] == d && d[..|d|] == d;
      AllDigits(d);
      ValueOfRender(-n);
    } else {
      var d := Render(n);
      assert s[0..] == d && d[..|d|] == d;
      assert IsDigit(d[0]);
      AllDigits(d);
      ValueOfRender(n);
    }
  }

  function Pow10(d: nat): (p: nat)
    ensures p > 0
  {
    if d == 0 then 1 else 10 * Pow10(d - 1)
  }

  lemma {:induction false} RenderLength(n: nat, d: nat)
    requires d >= 1 && n < Pow10(d)
    ensures |Render(n)| <= d
    decreases d
  {
    assert Pow10(1) == 10;
    if n >= 10 {
      RenderLength(n / 10, d - 1);
    }
  }

  // ---- Fields --------------------------------------------------------------------------------

  /** A parsed field: its tag, its value, and where it starts in the message. */
  datatype Field = Field(tag: nat, value: string, start: nat)

  /** The first position of `c` at or after `pos`, or the length of the text. */
  function IndexOf(s: string, c: char, pos: nat): (i: nat)
    requires pos <= |s|
    ensures pos <= i <= |s| && (i < |s| ==> s[i] == c) && forall k :: pos <= k < i ==> s[k] != c
    decreases |s| - pos
  {
    if pos == |s| || s[pos] == c then pos else IndexOf(s, c, pos + 1)
  }

  predicate HasTag(fields: seq<Field>, tag: nat) {
    exists i :: 0 <= i < |fields| && fields[i].tag == tag
  }

  /** The field at `pos`, if one is well formed there and may still be added. */
  function FieldAt(msg: string, pos: nat, fields: seq<Field>): Option<Field>
    requires pos < |msg|
  {
    var soh := IndexOf(msg, SOH, pos);
    var eq := IndexOf(msg, '=', pos);
    if soh == |msg| || eq >= soh then None
    else
      var tag := FromChars(msg[pos..eq], 0, UINT_MAX);
      if !(tag.Read? && tag.length == eq - pos) || |fields| >= MAX_FIELDS || HasTag(fields, tag.value) then None
      else Some(Field(tag.value, msg[eq + 1..soh], pos))
  }

  /** Split into fields; a missing delimiter, a bad tag, a repeated tag or too many fields spoil the message. */
  function Tokens(msg: string, pos: nat, fields: seq<Field>): Option<seq<Field>>
    requires pos <= |msg|
    decreases |msg| - pos
  {
    if pos == |msg| then Some(fields)
    else
      var f := FieldAt(msg, pos, fields);
      if f.None? then None else Tokens(msg, IndexOf(msg, SOH, pos) + 1, fields + [f.value])
  }

  method Tokenize(msg: string) returns (r: Option<seq<Field>>)
    ensures r == Tokens(msg, 0, [])
  {
    var fields: seq<Field>, pos := [], 0;
    while pos < |msg|
      invariant 0 <= pos <= |msg| && Tokens(msg, 0, []) == Tokens(msg, pos, fields)
    {
      var f := FieldAt(msg, pos, fields);
      if f.None? {
        return None;
      }
      fields := fields + [f.value];
      pos := IndexOf(msg, SOH, pos) + 1;
    }
    return Some(fields);
  }

  // ---- Writing fields ------------------------------------------------------------------------

  /** A field to be written. */
  datatype Entry = Entry(tag: nat, value: string)

  function Text(e: Entry): string {
    Render(e.tag) + "=" + e.value + [SOH]
  }

  function Texts(es: seq<Entry>): string {
    if es == [] then [] else Text(es[0]) + Texts(es[1..])
  }

  /** The fields a written text parses to, given where it starts. */
  function Placed(es: seq<Entry>, start: nat): seq<Field> {
    if es == [] then []
    else [Field(es[0].tag, es[0].value, start)] + Placed(es[1..], start + |Text(es[0])|)
  }

  predicate Clean(value: string) {
    forall i :: 0 <= i < |value| ==> value[i] != SOH
  }

  ghost predicate Writable(es: seq<Entry>) {
    && (forall i :: 0 <= i < |es| ==> es[i].tag <= UINT_MAX && Clean(es[i].value))
    && (forall i, j :: 0 <= i < j < |es| ==> es[i].tag != es[j].tag)
  }

  lemma {:induction false} FoundAt(s: string, c: char, pos: nat, i: nat)
    requires pos <= i < |s| && s[i] == c && forall k :: pos <= k < i ==> s[k] != c
    ensures IndexOf(s, c, pos) == i
  {
    var j := IndexOf(s, c, pos);
  }

  /** Where the two delimiters of a written field are. */
  lemma {:induction false} Delimiters(msg: string, pos: nat, e: Entry)
    requires pos + |Text(e)| <= |msg| && msg[pos..pos + |Text(e)|] == Text(e) && Clean(e.value)
    ensures IndexOf(msg, '=', pos) == pos + |Render(e.tag)|
    ensures IndexOf(msg, SOH, pos) == pos + |Text(e)| - 1
    ensures msg[pos..pos + |Render(e.tag)|] == Render(e.tag)
    ensures msg[pos + |Render(e.tag)| + 1..pos + |Text(e)| - 1] == e.value
  {
    hide Render, IndexOf;
    var t, d := Text(e), Render(e.tag);
    var w := msg[pos..pos + |t|];
    assert forall k :: 0 <= k < |t| ==> msg[pos + k] == w[k];
    assert forall k :: 0 <= k < |d| ==> IsDigit(d[k]);
    assert forall k :: 0 <= k < |d| ==> t[k] == d[k];
    assert t[|d|] == '=' && t[|t| - 1] == SOH;
    assert forall k :: |d| < k < |t| - 1 ==> t[k] == e.value[k - |d| - 1];
    forall k | pos <= k < pos + |d| ensures msg[k] != '=' && msg[k] != SOH {
      assert msg[pos + (k - pos)] == t[k - pos];
    }
    FoundAt(msg, '=', pos, pos + |d|);
    forall k | pos <= k < pos + |t| - 1 ensures msg[k] != SOH {
      assert msg[pos + (k - pos)] == t[k - pos];
    }
    FoundAt(msg, SOH, pos, pos + |t| - 1);
    Pieces(msg, pos, d, e.value);
  }

  lemma {:induction false} Pieces(msg: string, pos: nat, d: string, v: string)
    requires pos + |d| + |v| + 2 <= |msg| && msg[pos..pos + |d| + |v| + 2] == d + "=" + v + [SOH]
    ensures msg[pos..pos + |d|] == d && msg[pos + |d| + 1..pos + |d| + 1 + |v|] == v
  {
    var t, w := d + "=" + v + [SOH], msg[pos..pos + |d| + |v| + 2];
    assert forall k :: 0 <= k < |t| ==> msg[pos + k] == w[k];
    assert forall k :: 0 <= k < |v| ==> t[|d| + 1 + k] == v[k];
    forall k | 0 <= k < |v| ensures msg[pos + |d| + 1..pos + |d| + 1 + |v|][k] == v[k] {
      assert msg[pos + (|d| + 1 + k)] == w[|d| + 1 + k];
    }
    forall k | 0 <= k < |d| ensures msg[pos..pos + |d|][k] == d[k] {
      assert msg[pos + k] == w[k] == t[k];
    }
  }

  /** A written field is tokenized as itself. */
  lemma {:induction false} TokenOf(msg: string, pos: nat, e: Entry, fields: seq<Field>)
    requires pos + |Text(e)| <= |msg| && msg[pos..pos + |Text(e)|] == Text(e) && Clean(e.value) && e.tag <= UINT_MAX
    requires |fields| < MAX_FIELDS && !HasTag(fields, e.tag)
    ensures pos < |msg| && FieldAt(msg, pos, fields) == Some(Field(e.tag, e.value, pos))
    ensures IndexOf(msg, SOH, pos) + 1 == pos + |Text(e)|
  {
    hide Render, IndexOf, FromChars, HasTag;
    Delimiters(msg, pos, e);
    TextSize(e);
    ReadRendered(e.tag, 0, UINT_MAX);
    RenderOfNat(e.tag);
  }

  lemma {:induction false} TextSize(e: Entry)
    ensures |Text(e)| == |Render(e.tag)| + |e.value| + 2
  {
  }

  lemma {:induction false} RenderOfNat(n: nat)
    ensures RenderInt(n) == Render(n)
  {
  }

  lemma {:induction false} NotYet(fields: seq<Field>, es: seq<Entry>)
    requires es != [] && Writable(es) && (forall i :: 0 <= i < |es| ==> !HasTag(fields, es[i].tag))
    ensures forall start: nat, i :: 1 <= i < |es| ==>
              !HasTag(fields + [Field(es[0].tag, es[0].value, start)], es[i].tag)
  {
    forall start: nat, i | 1 <= i < |es| ensures !HasTag(fields + [Field(es[0].tag, es[0].value, start)], es[i].tag) {
      var all := fields + [Field(es[0].tag, es[0].value, start)];
      assert forall k :: 0 <= k < |fields| ==> fields[k].tag != es[i].tag;
      assert forall k :: 0 <= k < |all| ==> all[k].tag != es[i].tag;
    }
  }

  lemma {:induction false} FrontSplits(msg: string, pos: nat, t: string, rest: string)
    requires pos <= |msg| && msg[pos..] == t + rest
    ensures pos + |t| <= |msg| && msg[pos..pos + |t|] == t && msg[pos + |t|..] == rest
  {
    assert msg[pos..pos + |t|] == msg[pos..][..|t|];
    assert msg[pos + |t|..] == msg[pos..][|t|..];
  }

  lemma {:induction false} TokensStep(msg: string, pos: nat, fields: seq<Field>)
    requires pos < |msg| && FieldAt(msg, pos, fields).Some?
    ensures IndexOf(msg, SOH, pos) < |msg|
    ensures Tokens(msg, pos, fields)
            == Tokens(msg, IndexOf(msg, SOH, pos) + 1, fields + [FieldAt(msg, pos, fields).value])
  {
    hide IndexOf, HasTag, FromChars;
  }

  lemma {:induction false} WritableTail(es: seq<Entry>)
    requires Writable(es) && es != []
    ensures Writable(es[1..]) && es[0].tag <= UINT_MAX && Clean(es[0].value)
  {
  }

  /** Writing distinct fields and tokenizing them gives them back, with their positions. */
  lemma {:induction false} TokensOfTexts(msg: string, pos: nat, es: seq<Entry>, fields: seq<Field>)
    requires pos <= |msg| && msg[pos..] == Texts(es) && Writable(es) && |fields| + |es| <= MAX_FIELDS
    requires forall i :: 0 <= i < |es| ==> !HasTag(fields, es[i].tag)
    ensures Tokens(msg, pos, fields) == Some(fields + Placed(es, pos))
    decreases |es|
  {
    hide Text, FieldAt, IndexOf, HasTag, Tokens, Writable, Clean;
    if es == [] {
      assert fields + [] == fields;
      TokensEnd(msg, pos, fields);
    } else {
      var t, rest := Text(es[0]), Texts(es[1..]);
      FrontSplits(msg, pos, t, rest);
      WritableTail(es);
      TokenOf(msg, pos, es[0], fields);
      var f := Field(es[0].tag, es[0].value, pos);
      NotYet(fields, es);
      TokensStep(msg, pos, fields);
      TokensOfTexts(msg, pos + |t|, es[1..], fields + [f]);
      assert fields + [f] + Placed(es[1..], pos + |t|) == fields + ([f] + Placed(es[1..], pos + |t|));
    }
  }

  lemma {:induction false} TokensEnd(msg: string, pos: nat, fields: seq<Field>)
    requires pos == |msg|
    ensures Tokens(msg, pos, fields) == Some(fields)
  {
  }
}
