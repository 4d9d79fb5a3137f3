/** The parts of Go's `strings` package and of Go's string length that the
    core relies on. A Go string here is a sequence of Unicode scalar values,
    that is, a valid UTF-8 byte string read rune by rune. */
module GoStrings {

  /** unicode.IsSpace: tab, line feed, vertical tab (U+000B), form feed
      (U+000C), carriage return and space, NEL, NO-BREAK SPACE and the rest of
      Unicode's White_Space property. This is the separator of strings.Fields. */
  predicate IsSpace(c: char) {
    || c == '\t' || c == '\n' || c == '\U{B}' || c == '\U{C}' || c == '\r' || c == ' '
    || c == '\U{85}' || c == '\U{A0}' || c == '\U{1680}'
    || ('\U{2000}' <= c <= '\U{200A}')
    || c == '\U{2028}' || c == '\U{2029}' || c == '\U{202F}' || c == '\U{205F}'
    || c == '\U{3000}'
  }

  predicate AllSpaces(s: string) {
    forall i :: 0 <= i < |s| ==> IsSpace(s[i])
  }

  /** A field as strings.Fields produces it: a non-empty run of non-space runes. */
  predicate IsField(w: string) {
    |w| > 0 && forall i :: 0 <= i < |w| ==> !IsSpace(w[i])
  }

  predicate IsAscii(c: char) { c as int < 0x80 }

  // ---------------------------------------------------------------------------
  // Byte length

  /** Number of bytes the UTF-8 encoding of `c` takes. */
  function RuneLen(c: char): (n: nat)
    ensures 1 <= n <= 4
    ensures n == 1 <==> IsAscii(c)
  {
    if c as int < 0x80 then 1
    else if c as int < 0x800 then 2
    else if c as int < 0x1_0000 then 3
    else 4
  }

  /** Go's `len(s)` on a string: its length in bytes, not in runes. */
  function Utf8Len(s: string): (n: nat)
    ensures |s| <= n <= 4 * |s|
  {
    if |s| == 0 then 0 else RuneLen(s[0]) + Utf8Len(s[1..])
  }

  /** The byte length equals the rune count exactly when every rune is ASCII. */
  lemma {:induction false} Utf8LenAscii(s: string)
    ensures Utf8Len(s) == |s| <==> forall i :: 0 <= i < |s| ==> IsAscii(s[i])
  {
    if |s| > 0 {
      Utf8LenAscii(s[1..]);
      assert forall i :: 1 <= i < |s| ==> s[i] == s[1..][i - 1];
    }
  }

  // ---------------------------------------------------------------------------
  // strings.ToLower

  /** unicode.ToLower restricted to what the model needs: ASCII capitals are
      folded, and so are the only two non-ASCII runes Go lowers into ASCII
      (LATIN CAPITAL LETTER I WITH DOT ABOVE and KELVIN SIGN). Every other
      rune is kept as it is. */
  function LowerRune(c: char): (d: char)
    ensures IsAscii(d) ==> IsAscii(c) || c == '\U{130}' || c == '\U{212A}'
    ensures !('A' <= d <= 'Z')
  {
    if 'A' <= c <= 'Z' then (c as int + 32) as char
    else if c == '\U{130}' then 'i'
    else if c == '\U{212A}' then 'k'
    else c
  }

  /** strings.ToLower: rune by rune, keeping the rune count. */
  function ToLower(s: string): (r: string)
    ensures |r| == |s|
    ensures forall i :: 0 <= i < |s| ==> r[i] == LowerRune(s[i])
  {
    if |s| == 0 then [] else [LowerRune(s[0])] + ToLower(s[1..])
  }

  // ---------------------------------------------------------------------------
  // strings.Fields

  /** Number of leading spaces of `s`. */
  function LeadingSpaces(s: string): (k: nat)
    ensures k <= |s|
    ensures forall i :: 0 <= i < k ==> IsSpace(s[i])
    ensures k == |s| || !IsSpace(s[k])
  {
    if |s| > 0 && IsSpace(s[0]) then 1 + LeadingSpaces(s[1..]) else 0
  }

  /** `s` with its leading spaces removed. */
  function TrimLeftSpaces(s: string): string {
    s[LeadingSpaces(s)..]
  }

  /** Length of the longest prefix of `s` without a space. */
  function WordLen(s: string): (n: nat)
    ensures n <= |s|
    ensures forall i :: 0 <= i < n ==> !IsSpace(s[i])
    ensures n == |s| || IsSpace(s[n])
  {
    if |s| > 0 && !IsSpace(s[0]) then 1 + WordLen(s[1..]) else 0
  }

  lemma TrimmedEmptyIsAllSpaces(s: string)
    ensures TrimLeftSpaces(s) == [] <==> AllSpaces(s)
  {
  }

  lemma FirstWordIsField(t: string)
    requires t != [] && !IsSpace(t[0])
    ensures 0 < WordLen(t) && IsField(t[..WordLen(t)])
  {
    var n := WordLen(t);
    forall i | 0 <= i < n ensures !IsSpace(t[..n][i]) {
      assert t[..n][i] == t[i];
    }
  }

  /** strings.Fields: the maximal runs of non-space runes of `s`, in order. */
  function Fields(s: string): seq<string>
    decreases |s|
  {
    var t := TrimLeftSpaces(s);
    if t == [] then
      []
    else
      var n := WordLen(t);
      FirstWordIsField(t);
      [t[..n]] + Fields(t[n..])
  }

  /** Every field is a non-empty run of non-space runes, and there are none
      exactly when the input is all whitespace. */
  lemma {:induction false} FieldsAreFields(s: string)
    ensures forall i :: 0 <= i < |Fields(s)| ==> IsField(Fields(s)[i])
    ensures Fields(s) == [] <==> AllSpaces(s)
    decreases |s|
  {
    var t := TrimLeftSpaces(s);
    TrimmedEmptyIsAllSpaces(s);
    if t != [] {
      var n := WordLen(t);
      FirstWordIsField(t);
      FieldsAreFields(t[n..]);
      ConsFields(t[..n], Fields(t[n..]));
    }
  }

  lemma ConsFields(w: string, rest: seq<string>)
    requires IsField(w)
    requires forall i :: 0 <= i < |rest| ==> IsField(rest[i])
    ensures forall i :: 0 <= i < |[w] + rest| ==> IsField(([w] + rest)[i])
  {
    forall i | 0 <= i < |[w] + rest| ensures IsField(([w] + rest)[i]) {
      if i > 0 {
        assert ([w] + rest)[i] == rest[i - 1];
      }
    }
  }

  /** `s` with every space removed: an independent description of what the
      fields of `s` hold between them. */
  function RemoveSpaces(s: string): (r: string)
    ensures |r| <= |s|
    ensures forall i :: 0 <= i < |r| ==> !IsSpace(r[i])
  {
    if |s| == 0 then []
    else if IsSpace(s[0]) then RemoveSpaces(s[1..])
    else [s[0]] + RemoveSpaces(s[1..])
  }

  function Concat(fs: seq<string>): string {
    if |fs| == 0 then [] else fs[0] + Concat(fs[1..])
  }

  lemma {:induction false} RemoveSpacesAppend(a: string, b: string)
    ensures RemoveSpaces(a + b) == RemoveSpaces(a) + RemoveSpaces(b)
  {
    if |a| > 0 {
      assert (a + b)[1..] == a[1..] + b;
      RemoveSpacesAppend(a[1..], b);
    } else {
      assert a + b == b;
    }
  }

  lemma {:induction false} RemoveSpacesOfSpaces(s: string)
    requires AllSpaces(s)
    ensures RemoveSpaces(s) == []
  {
    if |s| > 0 {
      RemoveSpacesOfSpaces(s[1..]);
    }
  }

  lemma {:induction false} RemoveSpacesOfField(w: string)
    requires forall i :: 0 <= i < |w| ==> !IsSpace(w[i])
    ensures RemoveSpaces(w) == w
  {
    if |w| > 0 {
      RemoveSpacesOfField(w[1..]);
    }
  }

  lemma ConcatCons(w: string, rest: seq<string>)
    ensures Concat([w] + rest) == w + Concat(rest)
  {
    assert ([w] + rest)[1..] == rest;
  }

  /** One step of strings.Fields: the first field is the first word after the
      leading spaces, and the rest are the fields of what follows it. */
  lemma FieldsStep(s: string)
    requires TrimLeftSpaces(s) != []
    ensures var t := TrimLeftSpaces(s); var n := WordLen(t);
      Fields(s) == [t[..n]] + Fields(t[n..])
  {
  }

  lemma RemoveSpacesSkipsLeading(s: string)
    ensures RemoveSpaces(s) == RemoveSpaces(TrimLeftSpaces(s))
  {
    var t := TrimLeftSpaces(s);
    var k := |s| - |t|;
    assert s == s[..k] + t;
    RemoveSpacesAppend(s[..k], t);
    RemoveSpacesOfSpaces(s[..k]);
  }

  lemma FieldsKeepStep(s: string, w: string, u: string)
    requires TrimLeftSpaces(s) == w + u && w == TrimLeftSpaces(s)[..WordLen(TrimLeftSpaces(s))]
    requires IsField(w)
    requires Concat(Fields(u)) == RemoveSpaces(u)
    ensures Concat(Fields(s)) == RemoveSpaces(s)
  {
    var t := TrimLeftSpaces(s);
    assert u == t[|w|..];
    calc {
      Concat(Fields(s));
      { FieldsStep(s); }
      Concat([w] + Fields(u));
      { ConcatCons(w, Fields(u)); }
      w + Concat(Fields(u));
      { RemoveSpacesOfField(w); }
      RemoveSpaces(w) + RemoveSpaces(u);
      { RemoveSpacesAppend(w, u); }
      RemoveSpaces(t);
      { RemoveSpacesSkipsLeading(s); }
      RemoveSpaces(s);
    }
  }

  /** Splitting loses nothing but spaces: the fields laid end to end are the
      input with its spaces removed. */
  lemma {:induction false} FieldsKeepEveryNonSpace(s: string)
    ensures Concat(Fields(s)) == RemoveSpaces(s)
    decreases |s|
  {
    var t := TrimLeftSpaces(s);
    if t == [] {
      RemoveSpacesSkipsLeading(s);
    } else {
      var n := WordLen(t);
      var w, u := t[..n], t[n..];
      assert t == w + u;
      FieldsKeepEveryNonSpace(u);
      FieldsKeepStep(s, w, u);
    }
  }

  lemma {:induction false} TrimLeftSpacesSkips(lead: string, s: string)
    requires AllSpaces(lead)
    ensures TrimLeftSpaces(lead + s) == TrimLeftSpaces(s)
  {
    if |lead| > 0 {
      assert (lead + s)[1..] == lead[1..] + s;
      TrimLeftSpacesSkips(lead[1..], s);
    } else {
      assert lead + s == s;
    }
  }

  /** Leading whitespace, however long, does not change the fields. */
  lemma FieldsSkipLeadingSpaces(lead: string, s: string)
    requires AllSpaces(lead)
    ensures Fields(lead + s) == Fields(s)
  {
    TrimLeftSpacesSkips(lead, s);
  }

  lemma {:induction false} WordLenOfFieldThenSpace(w: string, rest: string)
    requires IsField(w)
    requires rest == [] || IsSpace(rest[0])
    ensures WordLen(w + rest) == |w|
  {
    if |w| == 1 {
      assert (w + rest)[1..] == rest;
    } else {
      assert (w + rest)[1..] == w[1..] + rest;
      WordLenOfFieldThenSpace(w[1..], rest);
    }
  }

  /** Fields separated by non-empty runs of spaces: `fs[0] seps[0] fs[1] ...`. */
  function Layout(fs: seq<string>, seps: seq<string>): string
    requires |fs| >= 1 && |seps| == |fs| - 1
  {
    if |fs| == 1 then fs[0] else fs[0] + seps[0] + Layout(fs[1..], seps[1..])
  }

  predicate IsSeparator(sep: string) { |sep| > 0 && AllSpaces(sep) }

  /** strings.Fields undoes a layout of fields, whatever runs of whitespace
      separate them and whatever whitespace trails them. */
  lemma {:induction false} FieldsOfLayout(fs: seq<string>, seps: seq<string>, trail: string)
    requires |fs| >= 1 && |seps| == |fs| - 1
    requires forall i :: 0 <= i < |fs| ==> IsField(fs[i])
    requires forall i :: 0 <= i < |seps| ==> IsSeparator(seps[i])
    requires AllSpaces(trail)
    ensures Fields(Layout(fs, seps) + trail) == fs
    decreases |fs|
  {
    var w := fs[0];
    assert IsField(w);
    var rest := if |fs| == 1 then trail else seps[0] + (Layout(fs[1..], seps[1..]) + trail);
    var s := w + rest;
    if |fs| == 1 {
      assert Layout(fs, seps) + trail == s;
      FieldsSkipLeadingSpaces(trail, []);
      assert trail + [] == trail;
      assert Fields(rest) == [];
    } else {
      assert IsSeparator(seps[0]);
      assert Layout(fs, seps) + trail == s;
      FieldsOfLayout(fs[1..], seps[1..], trail);
      FieldsSkipLeadingSpaces(seps[0], Layout(fs[1..], seps[1..]) + trail);
      assert Fields(rest) == fs[1..];
    }
    assert TrimLeftSpaces(s) == s;
    WordLenOfFieldThenSpace(w, rest);
    assert s[..|w|] == w && s[|w|..] == rest;
    FieldsStep(s);
    assert fs == [w] + fs[1..];
  }

  /** Leading, trailing and repeated whitespace all collapse: the fields of a
      padded layout are exactly the laid-out fields. */
  lemma FieldsCollapseWhitespace(lead: string, fs: seq<string>, seps: seq<string>, trail: string)
    requires AllSpaces(lead) && AllSpaces(trail)
    requires |fs| >= 1 && |seps| == |fs| - 1
    requires forall i :: 0 <= i < |fs| ==> IsField(fs[i])
    requires forall i :: 0 <= i < |seps| ==> IsSeparator(seps[i])
    ensures Fields(lead + Layout(fs, seps) + trail) == fs
  {
    FieldsOfLayout(fs, seps, trail);
    FieldsOfPadded(lead, Layout(fs, seps), trail, fs);
  }

  lemma FieldsOfPadded(lead: string, mid: string, trail: string, fs: seq<string>)
    requires AllSpaces(lead)
    requires Fields(mid + trail) == fs
    ensures Fields(lead + mid + trail) == fs
  {
    assert lead + mid + trail == lead + (mid + trail);
    FieldsSkipLeadingSpaces(lead, mid + trail);
  }
}
