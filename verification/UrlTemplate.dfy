/** Filling the placeholders of an endpoint URL, one input after the other. */
module UrlTemplate {

  predicate NoBraces(s: string) {
    '{' !in s && '}' !in s
  }

  /** Python's `replace`: leftmost occurrences, not overlapping. */
  function Replace(s: string, pat: string, filler: string): string
    requires pat != ""
  {
    if s == "" then ""
    else if pat <= s then filler + Replace(s[|pat|..], pat, filler)
    else [s[0]] + Replace(s[1..], pat, filler)
  }

  function Placeholder(key: string): string {
    "{" + key + "}"
  }

  datatype Input = Input(key: string, value: string)

  function FillSpec(url: string, inputs: seq<Input>): string {
    if inputs == [] then url
    else
      var last := inputs[|inputs| - 1];
      Replace(FillSpec(url, inputs[..|inputs| - 1]), Placeholder(last.key), last.value)
  }

  /** Position of the first brace, or the length. */
  function FirstBrace(s: string): (j: nat)
    ensures j <= |s| && NoBraces(s[..j]) && (j < |s| ==> s[j] == '{' || s[j] == '}')
  {
    if s == "" || s[0] == '{' || s[0] == '}' then 0
    else
      var j := FirstBrace(s[1..]);
      assert s[..j + 1] == [s[0]] + s[1..][..j];
      j + 1
  }

  lemma FirstBraceAt(s: string, j: nat)
    requires j < |s| && (s[j] == '{' || s[j] == '}') && NoBraces(s[..j])
    ensures FirstBrace(s) == j
  {
    assert forall i :: 0 <= i < j ==> s[i] == s[..j][i];
    assert forall i :: 0 <= i < FirstBrace(s) ==> s[i] == s[..FirstBrace(s)][i];
  }

  /** Where the placeholder that may start s would end. */
  function End(s: string): (j: nat)
    requires s != ""
    ensures 0 < j <= |s|
  {
    1 + FirstBrace(s[1..])
  }

  predicate StartsPlaceholder(s: string) {
    s != "" && s[0] == '{' && End(s) < |s| && s[End(s)] == '}'
  }

  /** All placeholders filled at once; the ones without a value stay. */
  function Substitute(s: string, m: map<string, string>): string
    decreases |s|
  {
    if s == "" then ""
    else if StartsPlaceholder(s) then
      var j := End(s);
      var key := s[1..j];
      (if key in m then m[key] else s[..j + 1]) + Substitute(s[j + 1..], m)
    else [s[0]] + Substitute(s[1..], m)
  }

  /** Every brace of the one kind belongs to a placeholder. */
  predicate Fits(s: string, brace: char)
    decreases |s|
  {
    if s == "" then true
    else if StartsPlaceholder(s) then Fits(s[End(s) + 1..], brace)
    else s[0] != brace && Fits(s[1..], brace)
  }

  /** Every brace belongs to a placeholder, and placeholders do not nest. */
  predicate Balanced(s: string) {
    Fits(s, '{') && Fits(s, '}')
  }

  /** The inputs as a map; the earlier input of a key wins. */
  function ToMap(inputs: seq<Input>): map<string, string> {
    if inputs == [] then map[]
    else map[inputs[|inputs| - 1].key := inputs[|inputs| - 1].value] + ToMap(inputs[..|inputs| - 1])
  }

  // ---- One replacement ----

  lemma {:induction false} ReplaceSkips(a: string, t: string, pat: string, v: string)
    requires pat != "" && pat[0] == '{' && '{' !in a
    ensures Replace(a + t, pat, v) == a + Replace(t, pat, v)
  {
    if a == "" {
      assert a + t == t;
    } else {
      assert (a + t)[0] == a[0] != '{';
      assert (a + t)[1..] == a[1..] + t;
      ReplaceSkips(a[1..], t, pat, v);
      assert a == [a[0]] + a[1..];
    }
  }

  lemma ReplaceLeaves(a: string, t: string, pat: string, v: string)
    requires pat != "" && pat[0] == '{' && '{' !in a && !(pat <= "{" + a + t)
    ensures Replace("{" + a + t, pat, v) == "{" + a + Replace(t, pat, v)
  {
    var s := "{" + a + t;
    assert s[1..] == a + t;
    ReplaceSkips(a, t, pat, v);
    assert "{" + (a + Replace(t, pat, v)) == "{" + a + Replace(t, pat, v);
  }

  /** A placeholder at the front of s is the first one of s. */
  lemma PlaceholderPrefix(s: string, key: string)
    requires NoBraces(key)
    ensures Placeholder(key) <= s <==> StartsPlaceholder(s) && s[1..End(s)] == key
    ensures Placeholder(key) <= s ==> |Placeholder(key)| == End(s) + 1
  {
    var pat := Placeholder(key);
    if pat <= s {
      assert s[..|pat|] == pat;
      assert s[1..][..|key|] == pat[1..|key| + 1] == key;
      assert s[1..][|key|] == pat[|key| + 1] == '}';
      FirstBraceAt(s[1..], |key|);
    }
    if StartsPlaceholder(s) {
      assert s[..End(s) + 1] == "{" + s[1..End(s)] + "}";
    }
  }

  /** At a placeholder, replacing takes it whole or leaves it whole. */
  lemma ReplaceAtPlaceholder(s: string, key: string, v: string)
    requires StartsPlaceholder(s) && NoBraces(key)
    ensures var j := End(s);
            Replace(s, Placeholder(key), v) ==
            (if s[1..j] == key then v else s[..j + 1]) + Replace(s[j + 1..], Placeholder(key), v)
  {
    PlaceholderPrefix(s, key);
    var j := End(s);
    if s[1..j] != key {
      var a, t := s[1..j] + "}", s[j + 1..];
      assert s[1..j] == s[1..][..j - 1];
      assert s == "{" + a + t && s[..j + 1] == "{" + a;
      hide Replace;
      ReplaceLeaves(a, t, Placeholder(key), v);
    }
  }

  lemma {:induction false} ReplaceIsSubstitute(s: string, key: string, v: string)
    requires NoBraces(key)
    ensures Replace(s, Placeholder(key), v) == Substitute(s, map[key := v])
    decreases |s|
  {
    if s != "" {
      if StartsPlaceholder(s) {
        ReplaceAtPlaceholder(s, key, v);
        hide Replace;
        ReplaceIsSubstitute(s[End(s) + 1..], key, v);
      } else {
        PlaceholderPrefix(s, key);
        ReplaceIsSubstitute(s[1..], key, v);
      }
    }
  }

  // ---- Several replacements ----

  lemma {:induction false} NextOpens(s: string)
    requires Fits(s, '}')
    ensures FirstBrace(s) < |s| ==> s[FirstBrace(s)] == '{'
  {
    if s != "" && s[0] != '{' {
      NextOpens(s[1..]);
    }
  }

  /** Text without braces of the one kind, in front of text in which these all belong to
      placeholders, makes no new placeholder. */
  lemma {:induction false} SubstituteSkips(a: string, t: string, m: map<string, string>, brace: char)
    requires brace == '{' || brace == '}'
    requires brace !in a && Fits(t, brace)
    ensures Fits(a + t, brace) && Substitute(a + t, m) == a + Substitute(t, m)
  {
    if a == "" {
      assert a + t == t;
    } else {
      var s := a + t;
      assert s[0] == a[0] && s[1..] == a[1..] + t;
      SubstituteSkips(a[1..], t, m, brace);
      if a[0] == '{' {
        NextOpens(s[1..]);
      }
      assert !StartsPlaceholder(s);
      assert [a[0]] + (a[1..] + Substitute(t, m)) == a + Substitute(t, m);
    }
  }

  lemma SubstituteKeeps(key: string, t: string, m: map<string, string>, brace: char)
    requires NoBraces(key) && Fits(t, brace)
    ensures Fits(Placeholder(key) + t, brace)
    ensures Substitute(Placeholder(key) + t, m) ==
            (if key in m then m[key] else Placeholder(key)) + Substitute(t, m)
  {
    var s := Placeholder(key) + t;
    PlaceholderPrefix(s, key);
    assert s[..|key| + 2] == Placeholder(key) && s[|key| + 2..] == t;
  }

  ghost predicate Without(m: map<string, string>, brace: char) {
    forall k :: k in m ==> brace !in m[k]
  }

  /** The first placeholder of s, filled in two passes. */
  lemma PlaceholderTwice(s: string, t': string, m1: map<string, string>, m2: map<string, string>, brace: char)
    requires brace == '{' || brace == '}'
    requires StartsPlaceholder(s) && Without(m1, brace) && Fits(t', brace)
    ensures var key := s[1..End(s)];
            var first := if key in m1 then m1[key] else s[..End(s) + 1];
            && Fits(first + t', brace)
            && Substitute(first + t', m2) ==
               (if key in m1 then m1[key] else if key in m2 then m2[key] else s[..End(s) + 1]) + Substitute(t', m2)
  {
    var key := s[1..End(s)];
    assert key == s[1..][..End(s) - 1];
    assert s[..End(s) + 1] == Placeholder(key);
    if key in m1 {
      SubstituteSkips(m1[key], t', m2, brace);
    } else {
      SubstituteKeeps(key, t', m2, brace);
    }
  }

  /** Filling in two passes is filling once, with the first pass taking precedence. */
  lemma {:induction false} SubstituteTwice(s: string, m1: map<string, string>, m2: map<string, string>, brace: char)
    requires brace == '{' || brace == '}'
    requires Fits(s, brace) && Without(m1, brace)
    ensures Fits(Substitute(s, m1), brace)
    ensures Substitute(Substitute(s, m1), m2) == Substitute(s, m2 + m1)
    decreases |s|
  {
    if s != "" {
      hide StartsPlaceholder, Without;
      if StartsPlaceholder(s) {
        var t := s[End(s) + 1..];
        SubstituteTwice(t, m1, m2, brace);
        PlaceholderTwice(s, Substitute(t, m1), m1, m2, brace);
      } else {
        SubstituteTwice(s[1..], m1, m2, brace);
        SubstituteSkips([s[0]], Substitute(s[1..], m1), m2, brace);
      }
    }
  }

  lemma {:induction false} SubstituteNothing(s: string)
    ensures Substitute(s, map[]) == s
    decreases |s|
  {
    if s != "" {
      if StartsPlaceholder(s) {
        SubstituteNothing(s[End(s) + 1..]);
        assert s == s[..End(s) + 1] + s[End(s) + 1..];
      } else {
        SubstituteNothing(s[1..]);
      }
    }
  }

  predicate PlainKeys(inputs: seq<Input>) {
    forall i :: 0 <= i < |inputs| ==> NoBraces(inputs[i].key)
  }

  /** No value has a brace of the one kind. */
  predicate ValuesWithout(inputs: seq<Input>, brace: char) {
    forall i :: 0 <= i < |inputs| ==> brace !in inputs[i].value
  }

  /** The values do not have braces of both kinds among them. */
  predicate HarmlessValues(inputs: seq<Input>) {
    ValuesWithout(inputs, '{') || ValuesWithout(inputs, '}')
  }

  lemma {:induction false} ToMapWithout(inputs: seq<Input>, brace: char)
    requires ValuesWithout(inputs, brace)
    ensures Without(ToMap(inputs), brace)
  {
    if inputs != [] {
      ToMapWithout(inputs[..|inputs| - 1], brace);
    }
  }

  lemma {:induction false} FillFits(url: string, inputs: seq<Input>, brace: char)
    requires brace == '{' || brace == '}'
    requires Fits(url, brace) && PlainKeys(inputs) && ValuesWithout(inputs, brace)
    ensures FillSpec(url, inputs) == Substitute(url, ToMap(inputs))
  {
    if inputs == [] {
      SubstituteNothing(url);
    } else {
      var front, last := inputs[..|inputs| - 1], inputs[|inputs| - 1];
      FillFits(url, front, brace);
      ToMapWithout(front, brace);
      SubstituteTwice(url, ToMap(front), map[last.key := last.value], brace);
      ReplaceIsSubstitute(Substitute(url, ToMap(front)), last.key, last.value);
    }
  }

  /** Filling one input after the other fills all placeholders at once, unless the values have
      braces of both kinds. */
  lemma FillIsSubstitute(url: string, inputs: seq<Input>)
    requires Balanced(url) && PlainKeys(inputs) && HarmlessValues(inputs)
    ensures FillSpec(url, inputs) == Substitute(url, ToMap(inputs))
  {
    FillFits(url, inputs, if ValuesWithout(inputs, '{') then '{' else '}');
  }

  /** The loop over the inputs. */
  method Fill(template: string, inputs: seq<Input>) returns (url: string)
    ensures url == FillSpec(template, inputs)
    ensures Balanced(template) && PlainKeys(inputs) && HarmlessValues(inputs) ==>
              url == Substitute(template, ToMap(inputs))
  {
    url := template;
    for i := 0 to |inputs|
      invariant url == FillSpec(template, inputs[..i])
    {
      assert inputs[..i + 1][..i] == inputs[..i];
      url := Replace(url, Placeholder(inputs[i].key), inputs[i].value);
    }
    assert inputs[..|inputs|] == inputs;
    if Balanced(template) && PlainKeys(inputs) && HarmlessValues(inputs) {
      FillIsSubstitute(template, inputs);
    }
  }

  // ---- The order of the inputs ----

  predicate DistinctKeys(inputs: seq<Input>) {
    forall i, j :: 0 <= i < j < |inputs| ==> inputs[i].key != inputs[j].key
  }

  lemma {:induction false} ToMapMeans(inputs: seq<Input>)
    requires DistinctKeys(inputs)
    ensures forall k, v :: k in ToMap(inputs) && ToMap(inputs)[k] == v <==> Input(k, v) in inputs
  {
    if inputs != [] {
      var front, last := inputs[..|inputs| - 1], inputs[|inputs| - 1];
      ToMapMeans(front);
      MapGrows(front, last, ToMap(front));
      assert inputs == front + [last];
    }
  }

  lemma MapGrows(front: seq<Input>, last: Input, m: map<string, string>)
    requires forall k, v :: k in m && m[k] == v <==> Input(k, v) in front
    requires DistinctKeys(front + [last])
    ensures forall k, v :: k in map[last.key := last.value] + m && (map[last.key := last.value] + m)[k] == v <==>
              Input(k, v) in front + [last]
  {
    var inputs := front + [last];
    forall i | 0 <= i < |front| ensures front[i].key != last.key {
      assert inputs[i] == front[i] && inputs[|front|] == last;
    }
    assert last.key in m ==> Input(last.key, m[last.key]) in front;
    forall k, v ensures Input(k, v) in inputs <==> Input(k, v) in front || (k == last.key && v == last.value) {
      assert Input(k, v) in inputs <==> Input(k, v) in front || Input(k, v) == last;
    }
  }

  /** The same inputs in two orders, on a well-formed template. */
  predicate Reordered(url: string, inputs: seq<Input>, others: seq<Input>) {
    && Balanced(url) && PlainKeys(inputs) && DistinctKeys(inputs) && DistinctKeys(others)
    && (forall x :: x in inputs ==> x in others)
    && (forall x :: x in others ==> x in inputs)
  }

  lemma SameMap(inputs: seq<Input>, others: seq<Input>)
    requires DistinctKeys(inputs) && DistinctKeys(others)
    requires forall x :: x in inputs <==> x in others
    ensures ToMap(inputs) == ToMap(others)
  {
    ToMapMeans(inputs);
    ToMapMeans(others);
    hide ToMap;
    forall k ensures k in ToMap(inputs) <==> k in ToMap(others) {
      if k in ToMap(inputs) {
        assert Input(k, ToMap(inputs)[k]) in others;
      }
      if k in ToMap(others) {
        assert Input(k, ToMap(others)[k]) in inputs;
      }
    }
    forall k | k in ToMap(inputs) ensures ToMap(inputs)[k] == ToMap(others)[k] {
      assert Input(k, ToMap(inputs)[k]) in others;
    }
  }

  /** The order of the inputs does not matter, unless the values have braces of both kinds. */
  lemma OrderDoesNotMatter(url: string, inputs: seq<Input>, others: seq<Input>)
    requires Reordered(url, inputs, others) && HarmlessValues(inputs)
    ensures FillSpec(url, inputs) == FillSpec(url, others)
  {
    forall i | 0 <= i < |others| ensures others[i] in inputs {
    }
    FillIsSubstitute(url, inputs);
    FillIsSubstitute(url, others);
    SameMap(inputs, others);
  }

  // ---- When the order does matter ----

  /** Letters that make a key longer than any text at hand. */
  function Letters(c: char, n: nat): (s: string)
    requires c != '{' && c != '}'
    ensures |s| == n && NoBraces(s) && forall i :: 0 <= i < n ==> s[i] == c
  {
    seq(n, i => c)
  }

  lemma {:induction false} ReplaceAtEnd(v: string, pat: string, w: string)
    requires |v| < |pat| && pat[0] == '{' && '{' !in pat[1..]
    ensures Replace(v + pat, pat, w) == v + w
  {
    if v == "" {
      assert v + pat == pat && pat[|pat|..] == "";
      assert w + "" == w;
    } else {
      var s := v + pat;
      assert pat[|v|] == pat[1..][|v| - 1] && s[|v|] == pat[0];
      assert s[1..] == v[1..] + pat;
      ReplaceAtEnd(v[1..], pat, w);
      assert [v[0]] + (v[1..] + w) == v + w;
    }
  }

  lemma {:induction false} ReplaceShrinks(s: string, pat: string, p: nat)
    requires pat != "" && p + |pat| <= |s|
    ensures |Replace(s, pat, "")| <= |s|
    ensures s[p..p + |pat|] == pat ==> |Replace(s, pat, "")| < |s|
    decreases |s|
  {
    if pat <= s {
      ReplaceNotLonger(s[|pat|..], pat);
    } else {
      ReplaceNotLonger(s[1..], pat);
      if p > 0 {
        ReplaceShrinks(s[1..], pat, p - 1);
        assert s[1..][p - 1..p - 1 + |pat|] == s[p..p + |pat|];
      } else {
        assert s[0..|pat|] == s[..|pat|];
      }
    }
  }

  lemma {:induction false} ReplaceNotLonger(s: string, pat: string)
    requires pat != ""
    ensures |Replace(s, pat, "")| <= |s|
    decreases |s|
  {
    if s != "" {
      ReplaceNotLonger(if pat <= s then s[|pat|..] else s[1..], pat);
    }
  }

  /** After an opening brace of v, the text v + w has a placeholder. */
  lemma PlaceholderIn(v: string, w: string) returns (p: nat, key: string)
    requires '{' in v && '}' in w
    ensures NoBraces(key) && p + |key| + 2 <= |v + w|
    ensures (v + w)[p..p + |key| + 2] == Placeholder(key)
  {
    var s := v + w;
    var i :| 0 <= i < |v| && v[i] == '{';
    var j :| 0 <= j < |w| && w[j] == '}';
    assert s[i] == '{' && s[|v| + j] == '}';
    p := LastOpen(s, i, |v| + j);
    key := KeyAt(s[p..]);
    assert s[p..p + |key| + 2] == s[p..][..|key| + 2];
  }

  lemma KeyAt(t: string) returns (key: string)
    requires StartsPlaceholder(t)
    ensures NoBraces(key) && |key| + 2 <= |t| && t[..|key| + 2] == Placeholder(key)
  {
    key := t[1..][..End(t) - 1];
    assert t[..|key| + 2] == "{" + key + "}";
  }

  /** Between an opening and a later closing brace, some opening brace is followed by a closing one
      with none in between. */
  lemma {:induction false} LastOpen(s: string, i: nat, q: nat) returns (p: nat)
    requires i < q < |s| && s[i] == '{' && s[q] == '}'
    ensures p < |s| && StartsPlaceholder(s[p..])
    decreases q - i
  {
    var t := s[i..];
    var e := End(t);
    var rest := t[1..];
    assert rest[q - i - 1] == '}';
    assert forall k :: 0 <= k < FirstBrace(rest) ==> rest[k] == rest[..FirstBrace(rest)][k];
    assert FirstBrace(rest) <= q - i - 1;
    assert t[e] == rest[FirstBrace(rest)];
    if t[e] == '}' {
      p := i;
    } else {
      p := LastOpen(s, i + e, q);
    }
  }

  lemma PlaceholderAlone(a: string, b: string, v: string)
    requires NoBraces(a) && NoBraces(b) && a != b && |a| == |b|
    ensures Replace(Placeholder(b), Placeholder(a), v) == Placeholder(b)
  {
    var pa, pb, rest := Placeholder(a), Placeholder(b), b + "}";
    assert pa[1..|pa| - 1] == a && pb[1..|pb| - 1] == b;
    assert pb == "{" + rest + "";
    hide Placeholder, Replace;
    ReplaceLeaves(rest, "", pa, v);
    assert Replace("", pa, v) == "" by {
      ReplaceNothing(pa, v);
    }
  }

  lemma ReplaceNothing(pat: string, v: string)
    requires pat != ""
    ensures Replace("", pat, v) == ""
  {
  }

  lemma ReplaceFront(pat: string, t: string, v: string)
    requires pat != ""
    ensures Replace(pat + t, pat, v) == v + Replace(t, pat, v)
  {
    assert (pat + t)[..|pat|] == pat && (pat + t)[|pat|..] == t;
  }

  lemma PlaceholderShape(key: string)
    requires NoBraces(key)
    ensures var p := Placeholder(key);
            |p| == |key| + 2 && p[0] == '{' && '{' !in p[1..]
  {
    assert Placeholder(key)[1..] == key + "}";
  }

  /** Two long keys side by side, filled one after the other. */
  lemma FillTwo(a: string, b: string, v: string, w: string)
    requires NoBraces(a) && NoBraces(b) && a != b && |a| == |b| && |v| <= |b|
    ensures Replace(Replace(Placeholder(a) + Placeholder(b), Placeholder(a), v), Placeholder(b), w) == v + w
  {
    hide Replace, Placeholder;
    var pa, pb := Placeholder(a), Placeholder(b);
    PlaceholderAlone(a, b, v);
    PlaceholderShape(a);
    PlaceholderShape(b);
    ReplaceFront(pa, pb, v);
    ReplaceAtEnd(v, pb, w);
  }

  /** A key shorter than both does not occur. */
  lemma FillShort(a: string, b: string, c: string)
    requires NoBraces(a) && NoBraces(b) && NoBraces(c) && |c| < |a| && |c| < |b|
    ensures Replace(Placeholder(a) + Placeholder(b), Placeholder(c), "") == Placeholder(a) + Placeholder(b)
  {
    var pa, pb, pc := Placeholder(a), Placeholder(b), Placeholder(c);
    assert pc[|c| + 1] == '}' && pa[|c| + 1] == a[|c|] != '}' && pb[|c| + 1] == b[|c|] != '}';
    assert (pa + pb)[|c| + 1] == pa[|c| + 1];
    assert pa + pb == "{" + (a + "}") + pb && pb == "{" + (b + "}") + "";
    ReplaceLeaves(a + "}", pb, pc, "");
    ReplaceLeaves(b + "}", "", pc, "");
  }

  /** Three inputs, with the third first or last. */
  lemma FillThree(url: string, x: Input, y: Input, z: Input)
    ensures FillSpec(url, [x, y, z]) ==
            Replace(Replace(Replace(url, Placeholder(x.key), x.value), Placeholder(y.key), y.value),
                    Placeholder(z.key), z.value)
  {
    assert [x, y, z][..2] == [x, y] && [x, y][..1] == [x] && [x][..0] == [];
    hide Replace;
    assert FillSpec(url, [x]) == Replace(url, Placeholder(x.key), x.value);
    assert FillSpec(url, [x, y]) == Replace(FillSpec(url, [x]), Placeholder(y.key), y.value);
  }

  /** A value with an opening and a value with a closing brace, possibly the same value: together they
      make a placeholder that is filled by a third input exactly when that one comes later. */
  lemma BothBracesMatter(v: string, w: string) returns (url: string, x: Input, y: Input, z: Input)
    requires '{' in v && '}' in w
    ensures x.value == v && y.value == w && z.value == ""
    ensures Reordered(url, [x, y, z], [z, x, y])
    ensures FillSpec(url, [x, y, z]) != FillSpec(url, [z, x, y]) == v + w
  {
    var p, c := PlaceholderIn(v, w);
    var n := |v + w|;
    var a, b := Letters('a', n), Letters('b', n);
    assert a[0] != b[0] && |c| < n;
    url, x, y, z := Placeholder(a) + Placeholder(b), Input(a, v), Input(b, w), Input(c, "");
    assert |c| < |a| == |b| && a != b;
    hide Letters, Replace, Balanced, FillSpec, Placeholder;
    FillTwo(a, b, v, w);
    FillShort(a, b, c);
    FillThree(url, x, y, z);
    FillThree(url, z, x, y);
    Shrinks(v + w, c, p);
    TwoPlaceholders(a, b);
    ThreeReordered(url, x, y, z);
  }

  lemma Shrinks(s: string, c: string, p: nat)
    requires p + |c| + 2 <= |s| && s[p..p + |c| + 2] == Placeholder(c)
    ensures Replace(s, Placeholder(c), "") != s
  {
    ReplaceShrinks(s, Placeholder(c), p);
  }

  lemma ThreeReordered(url: string, x: Input, y: Input, z: Input)
    requires Balanced(url) && NoBraces(x.key) && NoBraces(y.key) && NoBraces(z.key)
    requires x.key != y.key && y.key != z.key && z.key != x.key
    ensures Reordered(url, [x, y, z], [z, x, y])
  {
  }

  lemma TwoPlaceholders(a: string, b: string)
    requires NoBraces(a) && NoBraces(b)
    ensures Balanced(Placeholder(a) + Placeholder(b))
  {
    var pb := Placeholder(b);
    assert pb == Placeholder(b) + "";
    SubstituteKeeps(b, "", map[], '{');
    SubstituteKeeps(b, "", map[], '}');
    SubstituteKeeps(a, pb, map[], '{');
    SubstituteKeeps(a, pb, map[], '}');
  }

  ghost predicate ValuesAmong(inputs: seq<Input>, values: set<string>) {
    forall i :: 0 <= i < |inputs| ==> inputs[i].value in values || NoBraces(inputs[i].value)
  }

  /** No order of inputs matters whose values are among `values` or have no braces. */
  ghost predicate OrderNeverMatters(values: set<string>) {
    forall url: string, inputs: seq<Input>, others: seq<Input> ::
      Reordered(url, inputs, others) && ValuesAmong(inputs, values) ==> FillSpec(url, inputs) == FillSpec(url, others)
  }

  /** The values for which the order never matters are exactly those without braces of both kinds
      among them. */
  lemma OrderNeverMattersExactly(values: set<string>)
    ensures OrderNeverMatters(values) <==>
            (forall v :: v in values ==> '{' !in v) || (forall v :: v in values ==> '}' !in v)
  {
    hide FillSpec, Balanced;
    if (forall v :: v in values ==> '{' !in v) || (forall v :: v in values ==> '}' !in v) {
      forall url: string, inputs: seq<Input>, others: seq<Input>
        | Reordered(url, inputs, others) && ValuesAmong(inputs, values)
        ensures FillSpec(url, inputs) == FillSpec(url, others)
      {
        OrderDoesNotMatter(url, inputs, others);
      }
    } else {
      var v, w :| v in values && '{' in v && w in values && '}' in w;
      var url, x, y, z := BothBracesMatter(v, w);
      assert ValuesAmong([x, y, z], values);
    }
  }
}
