/**
 * The string handling behind the admin's member list: Python's
 * `str.split(",")` and `str.strip()`, and the comma-separated list parser
 * built from them.
 */
module Text {

  /** Python's `str.isspace()` for one character: the ASCII controls
      TAB..CR, the separators U+001C..U+001F, SPACE, NEL, NO-BREAK SPACE and
      the Unicode space separators. These are the characters `strip()`
      removes when called without arguments. */
  predicate IsSpace(c: char) {
    || ('\t' <= c <= '\r')
    || ('\U{1C}' <= c <= '\U{1F}')
    || c == ' '
    || c == '\U{85}'
    || c == '\U{A0}'
    || c == '\U{1680}'
    || ('\U{2000}' <= c <= '\U{200A}')
    || c == '\U{2028}'
    || c == '\U{2029}'
    || c == '\U{202F}'
    || c == '\U{205F}'
    || c == '\U{3000}'
  }

  /** Every character of `s` is whitespace (vacuously so for ""). */
  predicate AllSpace(s: string) {
    forall i :: 0 <= i < |s| ==> IsSpace(s[i])
  }

  /** `s` neither starts nor ends with whitespace. */
  predicate NoEdgeSpace(s: string) {
    s == [] || (!IsSpace(s[0]) && !IsSpace(s[|s| - 1]))
  }

  /** The number of whitespace characters `s` starts with. */
  function LeadingSpace(s: string): (n: nat)
    ensures n <= |s|
    ensures forall k :: 0 <= k < n ==> IsSpace(s[k])
    ensures n < |s| ==> !IsSpace(s[n])
  {
    if s == [] || !IsSpace(s[0]) then 0 else 1 + LeadingSpace(s[1..])
  }

  /** The number of whitespace characters `s` ends with. */
  function TrailingSpace(s: string): (n: nat)
    ensures n <= |s|
    ensures forall k :: |s| - n <= k < |s| ==> IsSpace(s[k])
    ensures n < |s| ==> !IsSpace(s[|s| - n - 1])
  {
    if s == [] || !IsSpace(s[|s| - 1]) then 0 else 1 + TrailingSpace(s[..|s| - 1])
  }

  /** Python's `s.strip()`: `s` with its leading and trailing whitespace
      removed. The result is the slice of `s` that starts after the leading
      whitespace and stops before the trailing whitespace, and it neither
      starts nor ends with whitespace. */
  function Strip(s: string): (r: string)
    ensures NoEdgeSpace(r)
    ensures LeadingSpace(s) + |r| <= |s| && r == s[LeadingSpace(s)..LeadingSpace(s) + |r|]
    ensures r == [] <==> AllSpace(s)
    ensures r != [] ==> LeadingSpace(s) + |r| + TrailingSpace(s) == |s|
  {
    var a := LeadingSpace(s);
    if a == |s| then
      []
    else
      var b := TrailingSpace(s);
      assert !IsSpace(s[a]);
      assert a < |s| - b;
      s[a..|s| - b]
  }

  /** Stripping adds no characters; in particular it cannot create a comma. */
  lemma StripKeepsChars(s: string)
    ensures forall c :: c in Strip(s) ==> c in s
  {
    var r, i := Strip(s), LeadingSpace(s);
    forall c | c in r
      ensures c in s
    {
      var k :| 0 <= k < |r| && r[k] == c;
      assert s[i + k] == c;
    }
  }

  /** Strip is pinned down by its contract: any decomposition of a string
      into whitespace, a core without edge whitespace and whitespace is the
      one Strip finds. */
  lemma StripOfPadded(a: string, t: string, b: string)
    requires AllSpace(a) && AllSpace(b) && NoEdgeSpace(t)
    ensures Strip(a + t + b) == t
  {
    var s := a + t + b;
    if t == [] {
      assert AllSpace(s);
    } else {
      var n, m := LeadingSpace(s), TrailingSpace(s);
      assert s[|a|] == t[0];
      assert forall k :: 0 <= k < |a| ==> s[k] == a[k];
      assert n == |a|;
      assert s[|s| - |b| - 1] == t[|t| - 1];
      assert forall k :: 0 <= k < |b| ==> s[|a| + |t| + k] == b[k];
      assert m == |b|;
      assert s[|a|..|a| + |t|] == t;
    }
  }

  /** A string without edge whitespace is its own strip. */
  lemma StripUnpadded(t: string)
    requires NoEdgeSpace(t)
    ensures Strip(t) == t
  {
    StripOfPadded([], t, []);
    assert [] + t + [] == t;
  }

  /** Stripping twice is the same as stripping once. */
  lemma StripIdempotent(s: string)
    ensures Strip(Strip(s)) == Strip(s)
  {
    StripUnpadded(Strip(s));
  }

  /** The position of the first `c` in `s`. */
  function FirstIndex(s: string, c: char): (i: nat)
    requires c in s
    ensures i < |s| && s[i] == c && c !in s[..i]
  {
    if s[0] == c then 0
    else
      assert c in s[1..] by { assert s == [s[0]] + s[1..]; }
      1 + FirstIndex(s[1..], c)
  }

  /** Python's `s.split(",")`: the fields between commas, in order. There is
      always one more field than there are commas, empty fields included,
      and no field contains a comma. */
  function Split(s: string): (fields: seq<string>)
    ensures |fields| == multiset(s)[','] + 1
    ensures forall k :: 0 <= k < |fields| ==> ',' !in fields[k]
    decreases |s|
  {
    if ',' !in s then
      [s]
    else
      var i := FirstIndex(s, ',');
      assert s == s[..i] + [','] + s[i + 1..];
      assert multiset(s[..i])[','] == 0;
      [s[..i]] + Split(s[i + 1..])
  }

  /** Python's `",".join(fields)`. */
  function Join(fields: seq<string>): string
  {
    if fields == [] then ""
    else if |fields| == 1 then fields[0]
    else fields[0] + [','] + Join(fields[1..])
  }

  /** Splitting and re-joining gives back the original text. */
  lemma {:induction false} JoinSplit(s: string)
    ensures Join(Split(s)) == s
    decreases |s|
  {
    if ',' in s {
      var i := FirstIndex(s, ',');
      JoinSplit(s[i + 1..]);
      assert s == s[..i] + [','] + s[i + 1..];
    }
  }

  /** A comma-free prefix followed by a comma is split off as the first
      field. */
  lemma SplitAtComma(a: string, b: string)
    requires ',' !in a
    ensures Split(a + [','] + b) == [a] + Split(b)
  {
    var s := a + [','] + b;
    assert s[|a|] == ',';
    var i := FirstIndex(s, ',');
    assert s[..|a|] == a;
    assert i == |a|;
    assert s[i + 1..] == b;
  }

  /** Joining comma-free fields and splitting again gives back the fields. */
  lemma {:induction false} SplitJoin(fields: seq<string>)
    requires |fields| >= 1
    requires forall k :: 0 <= k < |fields| ==> ',' !in fields[k]
    ensures Split(Join(fields)) == fields
    decreases |fields|
  {
    if |fields| > 1 {
      SplitAtComma(fields[0], Join(fields[1..]));
      SplitJoin(fields[1..]);
      assert fields == [fields[0]] + fields[1..];
    }
  }

  /** The member list of the admin's login form: the text split at commas,
      each field stripped. One entry per field, in field order; a blank
      field becomes "". */
  function ParseMembers(csv: string): (members: seq<string>)
    ensures |members| == |Split(csv)| == multiset(csv)[','] + 1
    ensures forall k :: 0 <= k < |members| ==> members[k] == Strip(Split(csv)[k])
    ensures forall k :: 0 <= k < |members| ==> ',' !in members[k] && NoEdgeSpace(members[k])
  {
    var fields := Split(csv);
    assert forall k :: 0 <= k < |fields| ==> ',' !in Strip(fields[k]) by {
      forall k | 0 <= k < |fields| {
        StripKeepsChars(fields[k]);
      }
    }
    seq(|fields|, k requires 0 <= k < |fields| => Strip(fields[k]))
  }

  /** A name list written as "a,b,c", with names free of commas and of
      edge whitespace, parses back to the same list. */
  lemma ParseJoined(names: seq<string>)
    requires |names| >= 1
    requires forall k :: 0 <= k < |names| ==> ',' !in names[k] && NoEdgeSpace(names[k])
    ensures ParseMembers(Join(names)) == names
  {
    SplitJoin(names);
    forall k | 0 <= k < |names|
      ensures Strip(names[k]) == names[k]
    {
      StripUnpadded(names[k]);
    }
  }

  /** Each name surrounded by whitespace of its own. */
  function Pad(names: seq<string>, pads: seq<(string, string)>): (padded: seq<string>)
    requires |pads| == |names|
  {
    seq(|names|, k requires 0 <= k < |names| => pads[k].0 + names[k] + pads[k].1)
  }

  /** Whitespace around the names, as in "Kim, Park , Lee", does not change
      the parsed list. */
  lemma ParsePaddedJoin(names: seq<string>, pads: seq<(string, string)>)
    requires |names| >= 1 && |pads| == |names|
    requires forall k :: 0 <= k < |names| ==> ',' !in names[k] && NoEdgeSpace(names[k])
    requires forall k :: 0 <= k < |pads| ==> AllSpace(pads[k].0) && AllSpace(pads[k].1)
    ensures ParseMembers(Join(Pad(names, pads))) == names
  {
    var padded := Pad(names, pads);
    forall k | 0 <= k < |padded|
      ensures ',' !in padded[k] && Strip(padded[k]) == names[k]
    {
      var a, b := pads[k].0, pads[k].1;
      assert !IsSpace(',');
      assert ',' !in a && ',' !in b;
      StripOfPadded(a, names[k], b);
    }
    SplitJoin(padded);
  }

  /** `name` is a member parsed from `csv` exactly when some field of `csv`
      strips to `name`. */
  lemma MemberOfParsed(csv: string, name: string)
    ensures name in ParseMembers(csv) <==> exists k :: 0 <= k < |Split(csv)| && Strip(Split(csv)[k]) == name
  {
    var m := ParseMembers(csv);
    if name in m {
      var k :| 0 <= k < |m| && m[k] == name;
      assert Strip(Split(csv)[k]) == name;
    }
  }
}
