/** What the FIX envelope guards against: the CheckSum catches every single damaged byte in front of it. */
module FixDamage {
  import opened Types
  import opened FixText
  import opened FixCodec

  // ---- What the sum means --------------------------------------------------------------------

  lemma {:induction false} SumOfOne(c: char)
    ensures ByteSum([c]) == (c as int) % 256 && ByteSum([]) == 0
  {
    assert [c][..0] == [];
  }

  /** The sum is additive: every character adds its own code, wherever it stands. */
  lemma {:induction false} SumJoins(a: string, b: string)
    ensures ByteSum(a + b) == ByteSum(a) + ByteSum(b)
    decreases |b|
  {
    if b == [] {
      assert a + b == a;
    } else {
      var n := |b| - 1;
      SumJoins(a, b[..n]);
      assert (a + b)[..|a + b| - 1] == a + b[..n] && (a + b)[|a + b| - 1] == b[n];
    }
  }

  /** Replacing one character changes the sum by the difference of the two codes. */
  lemma {:induction false} SumReplaced(s: string, i: nat, c: char)
    requires i < |s|
    ensures ByteSum(s[i := c]) == ByteSum(s) - (s[i] as int) % 256 + (c as int) % 256
  {
    hide ByteSum;
    assert s == s[..i] + [s[i]] + s[i + 1..];
    assert s[i := c] == s[..i] + [c] + s[i + 1..];
    SumJoins(s[..i] + [s[i]], s[i + 1..]);
    SumJoins(s[..i], [s[i]]);
    SumJoins(s[..i] + [c], s[i + 1..]);
    SumJoins(s[..i], [c]);
    SumOfOne(s[i]);
    SumOfOne(c);
  }

  // ---- Where the fields of a parsed message are ----------------------------------------------

  function EndOf(msg: string, fs: seq<Field>, k: nat): int
    requires k < |fs|
  {
    if k + 1 < |fs| then fs[k + 1].start - 1 else |msg| - 1
  }

  /** Field `k` is the text between two delimiters: a number, an equals sign, the value. */
  ghost predicate FieldIs(msg: string, fs: seq<Field>, k: nat)
    requires k < |fs|
  {
    var f, end := fs[k], EndOf(msg, fs, k);
    && f.start < end < |msg| && msg[end] == SOH
    && (forall i :: f.start <= i < end ==> msg[i] != SOH)
    && (f.start > 0 ==> msg[f.start - 1] == SOH)
    && (var eq := IndexOf(msg, '=', f.start);
        && eq < end && FromChars(msg[f.start..eq], 0, UINT_MAX) == Read(f.tag, eq - f.start)
        && f.value == msg[eq + 1..end])
  }

  lemma {:induction false} FieldAtIs(msg: string, pos: nat, fields: seq<Field>)
    requires pos < |msg| && FieldAt(msg, pos, fields).Some?
    ensures var f, end := FieldAt(msg, pos, fields).value, IndexOf(msg, SOH, pos);
            var eq := IndexOf(msg, '=', pos);
            && f.start == pos && end < |msg| && eq < end
            && FromChars(msg[pos..eq], 0, UINT_MAX) == Read(f.tag, eq - pos) && f.value == msg[eq + 1..end]
            && !HasTag(fields, f.tag)
  {
    hide IndexOf, FromChars, HasTag;
  }

  lemma {:induction false} TokensKeep(msg: string, pos: nat, fields: seq<Field>)
    requires pos <= |msg| && Tokens(msg, pos, fields).Some?
    ensures fields <= Tokens(msg, pos, fields).value
    ensures pos < |msg| ==> |fields| < |Tokens(msg, pos, fields).value|
                            && Tokens(msg, pos, fields).value[|fields|].start == pos
    ensures pos == |msg| ==> Tokens(msg, pos, fields).value == fields
    decreases |msg| - pos
  {
    hide FieldAt, IndexOf;
    if pos < |msg| {
      var f := FieldAt(msg, pos, fields).value;
      FieldAtIs(msg, pos, fields);
      TokensKeep(msg, IndexOf(msg, SOH, pos) + 1, fields + [f]);
    }
  }

  /** Every field found from `pos` on is the text between two delimiters. */
  lemma {:induction false} FieldsAreText(msg: string, pos: nat, fields: seq<Field>, k: nat)
    requires pos <= |msg| && Tokens(msg, pos, fields).Some? && (pos > 0 ==> msg[pos - 1] == SOH)
    requires |fields| <= k < |Tokens(msg, pos, fields).value|
    ensures FieldIs(msg, Tokens(msg, pos, fields).value, k)
    decreases |msg| - pos
  {
    hide FieldAt, IndexOf, FromChars;
    TokensKeep(msg, pos, fields);
    var fs, f := Tokens(msg, pos, fields).value, FieldAt(msg, pos, fields).value;
    var next := IndexOf(msg, SOH, pos) + 1;
    FieldAtIs(msg, pos, fields);
    TokensKeep(msg, next, fields + [f]);
    assert fs == Tokens(msg, next, fields + [f]).value;
    if k > |fields| {
      FieldsAreText(msg, next, fields + [f], k);
    } else {
      assert fs[k] == f;
    }
  }

  lemma {:induction false} TagsDiffer(msg: string, pos: nat, fields: seq<Field>)
    requires pos <= |msg| && Tokens(msg, pos, fields).Some?
    requires forall i, j :: 0 <= i < j < |fields| ==> fields[i].tag != fields[j].tag
    ensures var fs := Tokens(msg, pos, fields).value;
            forall i, j :: 0 <= i < j < |fs| ==> fs[i].tag != fs[j].tag
    decreases |msg| - pos
  {
    hide FieldAt, IndexOf, FromChars;
    if pos < |msg| {
      var f := FieldAt(msg, pos, fields).value;
      FieldAtIs(msg, pos, fields);
      var more := fields + [f];
      forall i, j | 0 <= i < j < |more| ensures more[i].tag != more[j].tag {
        if j == |fields| { assert fields[i].tag != f.tag; }
      }
      TagsDiffer(msg, IndexOf(msg, SOH, pos) + 1, more);
    }
  }

  // ---- What a message that parses is ---------------------------------------------------------

  /** It ends in a CheckSum field whose three digits are the sum of all bytes in front of it. */
  lemma {:induction false} ParsedMeans(msg: string)
    requires ParseEnvelope(msg).Ok?
    ensures var p := ParseEnvelope(msg).value;
            && |p| >= 3 && Tokens(msg, 0, []) == Some(p)
            && p[0].tag == 8 && p[0].value == BEGIN_STRING && p[1].tag == 9 && p[2].tag == 35
            && (var last := p[|p| - 1];
                && last.tag == 10 && last.start <= |msg| && |last.value| == 3
                && WholeNumber(last.value, U32_MAX) == Some(ByteSum(msg[..last.start]) % 256)
                && WholeNumber(p[1].value, U64_MAX) == Some(last.start - p[2].start))
  {
    hide Tokens, ByteSum, WholeNumber;
  }

  // ---- One damaged byte ----------------------------------------------------------------------

  /** The last field of a tokenized text: where it starts, and that its tag and value are what stands there. */
  ghost predicate LastIs(msg: string, f: Field) {
    && f.start < |msg| - 1 && msg[|msg| - 1] == SOH
    && (forall i :: f.start <= i < |msg| - 1 ==> msg[i] != SOH)
    && (f.start > 0 ==> msg[f.start - 1] == SOH)
    && (var eq := IndexOf(msg, '=', f.start);
        && eq < |msg| - 1 && FromChars(msg[f.start..eq], 0, UINT_MAX) == Read(f.tag, eq - f.start)
        && f.value == msg[eq + 1..|msg| - 1])
  }

  lemma {:induction false} LastField(msg: string)
    requires Tokens(msg, 0, []).Some? && Tokens(msg, 0, []).value != []
    ensures var fs := Tokens(msg, 0, []).value; LastIs(msg, fs[|fs| - 1])
  {
    hide Tokens, IndexOf, FromChars;
    FieldsAreText(msg, 0, [], |Tokens(msg, 0, []).value| - 1);
  }

  /** The last field starts behind the last delimiter but one. */
  lemma {:induction false} SameStart(a: string, b: string, f: nat, g: nat)
    requires |a| == |b| && f < |a| && g < |b|
    requires (forall i :: f <= i < |a| - 1 ==> a[i] != SOH) && (f > 0 ==> a[f - 1] == SOH)
    requires (forall i :: g <= i < |b| - 1 ==> b[i] != SOH) && (g > 0 ==> b[g - 1] == SOH)
    requires (forall i :: f <= i < |a| ==> a[i] == b[i]) && (f > 0 ==> b[f - 1] == SOH)
    ensures f == g
  {
  }

  /** The text that says what a field is decides its tag and value. */
  lemma {:induction false} SameField(a: string, b: string, start: nat, end: nat)
    requires start < end < |a| && |a| == |b| && (forall i :: start <= i <= end ==> a[i] == b[i])
    requires IndexOf(a, '=', start) < end
    ensures IndexOf(b, '=', start) == IndexOf(a, '=', start)
    ensures a[start..IndexOf(a, '=', start)] == b[start..IndexOf(a, '=', start)]
    ensures a[IndexOf(a, '=', start) + 1..end] == b[IndexOf(a, '=', start) + 1..end]
  {
    hide IndexOf;
    FoundAt(b, '=', start, IndexOf(a, '=', start));
  }

  /** Two texts that agree from their last field on have the same last field. */
  lemma {:induction false} SameLast(a: string, b: string, f: Field, g: Field)
    requires |a| == |b| && LastIs(a, f) && LastIs(b, g)
    requires (forall i :: f.start <= i < |a| ==> a[i] == b[i]) && (f.start > 0 ==> b[f.start - 1] == SOH)
    ensures f == g
  {
    hide IndexOf, FromChars;
    SameStart(a, b, f.start, g.start);
    SameField(a, b, f.start, |a| - 1);
  }

  /** Damage that leaves the last delimiter alone leaves the CheckSum field alone, and the sum gives it away. */
  lemma {:induction false} SumGivesItAway(msg: string, i: nat, c: char)
    requires i < |msg| && ParseEnvelope(msg).Ok? && ParseEnvelope(msg[i := c]).Ok?
    requires var p := ParseEnvelope(msg).value; p != [] && i + 1 < p[|p| - 1].start
    ensures (c as int) % 256 == (msg[i] as int) % 256
  {
    hide ParseEnvelope, Tokens, ByteSum, WholeNumber, IndexOf, FromChars;
    var bad := msg[i := c];
    var p, q := ParseEnvelope(msg).value, ParseEnvelope(bad).value;
    ParsedMeans(msg);
    ParsedMeans(bad);
    LastField(msg);
    LastField(bad);
    var f := p[|p| - 1];
    SameLast(msg, bad, f, q[|q| - 1]);
    assert bad[..f.start] == msg[..f.start][i := c];
    SumReplaced(msg[..f.start], i, c);
    SumsApart(ByteSum(msg[..f.start]), (msg[i] as int) % 256, (c as int) % 256);
  }

  lemma {:induction false} SumsApart(sum: int, a: int, b: int)
    requires 0 <= a < 256 && 0 <= b < 256 && sum % 256 == (sum - a + b) % 256
    ensures a == b
  {
    var d := b - a;
    assert (sum + d) % 256 == sum % 256;
    assert (sum + d) - 256 * ((sum + d) / 256) == sum - 256 * (sum / 256);
    assert d == 256 * ((sum + d) / 256 - sum / 256);
  }

  lemma {:induction false} StartOfMerged(a: string, b: string, f: nat, i: nat, g: nat)
    requires |a| == |b| && f < i < |a| - 1 && g < |b|
    requires (forall k :: f <= k < i ==> a[k] != SOH) && (f > 0 ==> a[f - 1] == SOH)
    requires forall k :: i < k < |a| - 1 ==> a[k] != SOH
    requires (forall k :: 0 <= k < |a| && k != i ==> a[k] == b[k]) && b[i] != SOH
    requires (forall k :: g <= k < |b| - 1 ==> b[k] != SOH) && (g > 0 ==> b[g - 1] == SOH)
    ensures f == g
  {
  }

  /** Without its last delimiter the last two fields of a text are one, and it has the tag of the first of them. */
  lemma {:induction false} MergedTag(msg: string, i: nat, c: char)
    requires i < |msg| && c != SOH && Tokens(msg, 0, []).Some? && Tokens(msg[i := c], 0, []).Some?
    requires var p := Tokens(msg, 0, []).value; |p| >= 2 && i + 1 == p[|p| - 1].start
    ensures var p, q := Tokens(msg, 0, []).value, Tokens(msg[i := c], 0, []).value;
            q != [] && q[|q| - 1].tag == p[|p| - 2].tag
  {
    hide Tokens, IndexOf, FromChars;
    var bad := msg[i := c];
    var p, q := Tokens(msg, 0, []).value, Tokens(bad, 0, []).value;
    TokensKeep(bad, 0, []);
    FieldsAreText(msg, 0, [], |p| - 2);
    FieldsAreText(msg, 0, [], |p| - 1);
    LastField(bad);
    var f, g := p[|p| - 2], q[|q| - 1];
    StartOfMerged(msg, bad, f.start, i, g.start);
    var eq := IndexOf(msg, '=', f.start);
    FoundAt(bad, '=', f.start, eq);
    assert bad[f.start..eq] == msg[f.start..eq];
  }

  /** Losing the last delimiter leaves no CheckSum field. */
  lemma {:induction false} LostDelimiter(msg: string, i: nat, c: char)
    requires ParseEnvelope(msg).Ok? && c != SOH
    requires var p := ParseEnvelope(msg).value; p != [] && i < |msg| && i + 1 == p[|p| - 1].start
    ensures ParseEnvelope(msg[i := c]).Err?
  {
    hide ParseEnvelope, Tokens, ByteSum, WholeNumber;
    ParsedMeans(msg);
    TagsDiffer(msg, 0, []);
    if ParseEnvelope(msg[i := c]).Ok? {
      ParsedMeans(msg[i := c]);
      MergedTag(msg, i, c);
    }
  }

  /**
   * If a message parses, then replacing any one byte in front of its CheckSum field by another makes it
   * unparsable, whatever field the byte belongs to and even if it is a delimiter.
   */
  lemma {:induction false} DamageIsCaught(msg: string, i: nat, c: char)
    requires ParseEnvelope(msg).Ok?
    requires var p := ParseEnvelope(msg).value; p != [] && i < p[|p| - 1].start <= |msg|
    requires (c as int) % 256 != (msg[i] as int) % 256
    ensures ParseEnvelope(msg[i := c]).Err?
  {
    hide ParseEnvelope, Tokens, ByteSum, WholeNumber, LastIs;
    var p := ParseEnvelope(msg).value;
    ParsedMeans(msg);
    if i + 1 < p[|p| - 1].start {
      if ParseEnvelope(msg[i := c]).Ok? {
        SumGivesItAway(msg, i, c);
      }
    } else {
      LastField(msg);
      DelimiterBefore(msg, p[|p| - 1]);
      LostDelimiter(msg, i, c);
    }
  }

  lemma {:induction false} DelimiterBefore(msg: string, f: Field)
    requires LastIs(msg, f) && f.start > 0
    ensures msg[f.start - 1] == SOH
  {
  }
}
