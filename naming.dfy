/** `ConanDependency.PreferredName`: the class-name-safe name of a dependency.
    The name hint is preferred when it passes the (unanchored) identifier
    pattern; then every `-c` collapses to the upper-case `C` and the first
    character is upper-cased. */
module Naming {
  import opened Common
  import opened Text
  import opened Manifest

  /** The `cmake_find_package` hint replaces `Name`: the hint is present, not
      blank, and holds a letter or underscore somewhere. */
  predicate HintAccepted(d: ConanDependency) {
    && d.names.Some?
    && !IsNullOrWhiteSpace(d.names.value.findPackageName)
    && ContainsIdentStart(d.names.value.findPackageName)
  }

  /** The string the normalisation starts from. */
  function ChosenName(d: ConanDependency): string {
    if HintAccepted(d) then d.names.value.findPackageName else d.name
  }

  /** Number of hyphens in `s`. */
  function HyphenCount(s: string): (n: nat)
    ensures n <= |s|
    ensures n == 0 <==> '-' !in s
  {
    if |s| == 0 then 0 else (if s[0] == '-' then 1 else 0) + HyphenCount(s[1..])
  }

  /** The hyphen collapse in one left-to-right pass: a hyphen followed by `c`
      becomes `ToUpper(c)` in its place, a final hyphen disappears. */
  function Merge(s: string): string
    decreases |s|
  {
    if |s| == 0 then ""
    else if s[0] != '-' then [s[0]] + Merge(s[1..])
    else if |s| == 1 then ""
    else Merge([ToUpper(s[1])] + s[2..])
  }

  /** `s` with its first character upper-cased. */
  function Capitalize(s: string): (r: string)
    requires |s| > 0
    ensures |r| == |s| && r[1..] == s[1..] && !IsAsciiLower(r[0])
    ensures r[0] == (if IsAsciiLower(s[0]) then ToUpper(s[0]) else s[0])
  {
    [ToUpper(s[0])] + s[1..]
  }

  /** The hyphen collapse and the capitalisation that `PreferredName` applies:
      "" stays "", a name that collapses to "" makes `result[0]` throw,
      anything else is collapsed and capitalised. */
  function NormalizeName(s: string): Result<string> {
    if |s| == 0 then Ok("")
    else
      var m := Merge(s);
      if |m| == 0 then Throws(IndexOutOfRange) else Ok(Capitalize(m))
  }

  /** The value of `dependency.PreferredName`. */
  function PreferredNameOf(d: ConanDependency): Result<string> {
    NormalizeName(ChosenName(d))
  }

  /** The collapse removes every hyphen and shortens the string by exactly the
      number of hyphens. */
  lemma {:induction false} MergeShape(s: string)
    ensures '-' !in Merge(s)
    ensures |Merge(s)| == |s| - HyphenCount(s)
    decreases |s|
  {
    if |s| == 0 {
    } else if s[0] != '-' {
      MergeShape(s[1..]);
    } else if |s| == 1 {
    } else {
      var t := [ToUpper(s[1])] + s[2..];
      assert t[1..] == s[2..] && s[1..][1..] == s[2..];
      assert HyphenCount(t) + 1 == HyphenCount(s);
      MergeShape(t);
    }
  }

  /** A hyphen-free string is left as it is. */
  lemma {:induction false} MergeNoHyphen(s: string)
    requires '-' !in s
    ensures Merge(s) == s
    decreases |s|
  {
    if |s| > 0 {
      assert '-' !in s[1..];
      MergeNoHyphen(s[1..]);
    }
  }

  /** A hyphen-free prefix passes through the collapse unchanged. */
  lemma {:induction false} MergeAppend(p: string, t: string)
    requires '-' !in p
    ensures Merge(p + t) == p + Merge(t)
    decreases |p|
  {
    if |p| > 0 {
      var q := p + t;
      assert q[0] == p[0] && q[1..] == p[1..] + t;
      assert p[0] != '-' by { assert p[0] in p; }
      assert '-' !in p[1..];
      MergeAppend(p[1..], t);
      calc {
        Merge(q);
        [q[0]] + Merge(q[1..]);
        [p[0]] + (p[1..] + Merge(t));
        { assert p == [p[0]] + p[1..]; }
        p + Merge(t);
      }
    } else {
      assert p + t == t && p + Merge(t) == Merge(t);
    }
  }

  /** One iteration of the source's loop on the first hyphen, at `i`, leaves
      the collapsed result unchanged. */
  lemma MergeStep(r: string, i: nat)
    requires i < |r| && r[i] == '-' && '-' !in r[..i]
    ensures i + 1 < |r| ==> Merge(r[..i] + [ToUpper(r[i + 1])] + r[i + 2..]) == Merge(r)
    ensures i + 1 == |r| ==> Merge(r[..i]) == Merge(r)
  {
    if i + 1 < |r| {
      MergeStepInner(r, i);
    } else {
      MergeStepLast(r, i);
    }
  }

  /** A hyphen followed by a character becomes that character upper-cased. */
  lemma MergeStepInner(r: string, i: nat)
    requires i + 1 < |r| && r[i] == '-' && '-' !in r[..i]
    ensures Merge(r[..i] + [ToUpper(r[i + 1])] + r[i + 2..]) == Merge(r)
  {
    var p, t := r[..i], r[i..];
    var u := [ToUpper(r[i + 1])] + r[i + 2..];
    assert Merge(r) == p + Merge(t) by {
      assert r == p + t;
      MergeAppend(p, t);
    }
    assert Merge(t) == Merge(u) by {
      assert t[0] == '-' && |t| > 1;
      assert [ToUpper(t[1])] + t[2..] == u;
    }
    assert Merge(p + u) == p + Merge(u) by {
      MergeAppend(p, u);
    }
    assert r[..i] + [ToUpper(r[i + 1])] + r[i + 2..] == p + u;
  }

  /** A final hyphen is dropped. */
  lemma MergeStepLast(r: string, i: nat)
    requires i + 1 == |r| && r[i] == '-' && '-' !in r[..i]
    ensures Merge(r[..i]) == Merge(r)
  {
    var p := r[..i];
    assert Merge(r) == p + Merge(['-']) by {
      assert r == p + ['-'];
      MergeAppend(p, ['-']);
    }
    MergeNoHyphen(p);
    assert p + Merge(['-']) == p;
  }

  /** The getter itself: the hint test, the hyphen loop that rebuilds the
      string one hyphen at a time, then the capitalisation of `result[0]`. */
  method PreferredName(d: ConanDependency) returns (r: Result<string>)
    ensures r == PreferredNameOf(d)
  {
    var result := d.name;
    if d.names.Some? && !IsNullOrWhiteSpace(d.names.value.findPackageName) {
      // prefer names that can be used as a class name
      if ContainsIdentStart(d.names.value.findPackageName) {
        result := d.names.value.findPackageName;
      }
    }
    if |result| > 0 {
      ghost var chosen := result;
      while '-' in result
        invariant Merge(result) == Merge(chosen)
        decreases |result|
      {
        var index := IndexOf(result, '-');
        MergeStep(result, index);
        if index + 1 < |result| {
          var toReplace := ToUpper(result[index + 1]);
          ghost var before := result;
          result := result[..index] + result[index + 2..];
          result := result[..index] + [toReplace] + result[index..];
          assert result == before[..index] + [toReplace] + before[index + 2..];
        } else {
          result := result[..index] + result[index + 1..];
          assert result == result[..index];
        }
      }
      MergeNoHyphen(result);
      if |result| == 0 {
        return Throws(IndexOutOfRange);
      }
      if !IsUpper(result[0]) {
        var toReplace := ToUpper(result[0]);
        result := result[1..];
        result := [toReplace] + result;
      } else {
        assert result == [ToUpper(result[0])] + result[1..];
      }
    }
    return Ok(result);
  }

  /** The hint is used exactly when the source's `Regex.IsMatch` succeeds on a
      present, non-blank hint; otherwise the raw name is used. */
  lemma HintChoice(d: ConanDependency)
    ensures d.names.Some? && !IsNullOrWhiteSpace(d.names.value.findPackageName)
            && PatternOccursIn(d.names.value.findPackageName)
            ==> ChosenName(d) == d.names.value.findPackageName
    ensures !(d.names.Some? && !IsNullOrWhiteSpace(d.names.value.findPackageName)
              && PatternOccursIn(d.names.value.findPackageName))
            ==> ChosenName(d) == d.name
  {
    if d.names.Some? {
      UnanchoredMatch(d.names.value.findPackageName);
    }
  }

  /** What the derived name looks like: it throws exactly when a non-empty
      chosen name is made of hyphens only; otherwise it has no hyphen, is
      shorter than the chosen name by its hyphen count and does not start with
      a lower-case letter. */
  lemma NormalizeShape(s: string)
    ensures NormalizeName(s).Throws? <==> |s| > 0 && HyphenCount(s) == |s|
    ensures NormalizeName(s).Throws? ==> NormalizeName(s).fault == IndexOutOfRange
    ensures NormalizeName(s).Ok? ==>
              && '-' !in NormalizeName(s).value
              && |NormalizeName(s).value| == |s| - HyphenCount(s)
              && (|NormalizeName(s).value| > 0 ==> !IsAsciiLower(NormalizeName(s).value[0]))
  {
    MergeShape(s);
    if |s| > 0 && |Merge(s)| > 0 {
      var r := Capitalize(Merge(s));
      assert r == [r[0]] + Merge(s)[1..];
      assert r[0] != '-' by { assert Merge(s)[0] != '-'; }
    }
  }

  /** Deriving the name of an already derived name changes nothing. */
  lemma NormalizeIdempotent(s: string)
    requires NormalizeName(s).Ok?
    ensures NormalizeName(NormalizeName(s).value) == NormalizeName(s)
  {
    NormalizeShape(s);
    var r := NormalizeName(s).value;
    if |r| > 0 {
      MergeNoHyphen(r);
      assert ToUpper(r[0]) == r[0];
      assert Capitalize(r) == r;
    }
  }

  /** A hint that is a whole identifier is used as it is, apart from the
      capitalisation of its first letter. */
  lemma IdentifierHint(d: ConanDependency)
    requires d.names.Some? && IsIdentifier(d.names.value.findPackageName)
    ensures PreferredNameOf(d) == Ok(Capitalize(d.names.value.findPackageName))
    ensures !IsAsciiLower(d.names.value.findPackageName[0]) ==> PreferredNameOf(d) == Ok(d.names.value.findPackageName)
  {
    var h := d.names.value.findPackageName;
    UnanchoredMatch(h);
    assert !IsWhiteSpace(h[0]);
    assert '-' !in h by {
      forall i | 0 <= i < |h| ensures h[i] != '-' {
        if i > 0 { assert IsIdentPart(h[i]); }
      }
    }
    MergeNoHyphen(h);
    assert h == [h[0]] + h[1..];
  }

  /** After a hyphen-free word, `-c` becomes `ToUpper(c)` and the collapse
      goes on with the rest. */
  lemma MergeJoin(p: string, c: char, t: string)
    requires '-' !in p && c != '-'
    ensures Merge(p + ['-', c] + t) == p + [ToUpper(c)] + Merge(t)
  {
    assert p + ['-', c] + t == p + (['-', c] + t);
    MergeAppend(p, ['-', c] + t);
    var s := ['-', c] + t;
    assert [ToUpper(s[1])] + s[2..] == [ToUpper(c)] + t;
    var u := [ToUpper(c)] + t;
    assert u[1..] == t;
  }

  /** Hyphen-separated words are joined in PascalCase: in `p-cq-er` each
      hyphen and the letter after it become that letter upper-cased, so
      `my-awesome-lib` collapses to `myAwesomeLib`. */
  lemma MergeWords(p: string, c: char, q: string, e: char, r: string)
    requires '-' !in p && '-' !in q && '-' !in r && c != '-' && e != '-'
    ensures Merge(p + ['-', c] + q + ['-', e] + r) == p + [ToUpper(c)] + q + [ToUpper(e)] + r
  {
    var x := q + ['-', e] + r;
    assert Merge(x) == q + [ToUpper(e)] + r by {
      MergeNoHyphen(r);
      MergeJoin(q, e, r);
    }
    MergeJoin(p, c, x);
    assert p + ['-', c] + x == p + ['-', c] + q + ['-', e] + r;
    assert p + [ToUpper(c)] + (q + [ToUpper(e)] + r) == p + [ToUpper(c)] + q + [ToUpper(e)] + r;
  }

  /** The name derivation turns hyphen-separated lower-case words into
      PascalCase: `my-awesome-lib` becomes `MyAwesomeLib`. */
  lemma PascalCaseWords(p: string, c: char, q: string, e: char, r: string)
    requires '-' !in p && '-' !in q && '-' !in r && c != '-' && e != '-' && |p| > 0
    ensures NormalizeName(p + ['-', c] + q + ['-', e] + r)
            == Ok([ToUpper(p[0])] + p[1..] + [ToUpper(c)] + q + [ToUpper(e)] + r)
  {
    MergeWords(p, c, q, e, r);
    var s := p + ['-', c] + q + ['-', e] + r;
    var m := p + [ToUpper(c)] + q + [ToUpper(e)] + r;
    assert |s| > 0 && |m| > 0;
    assert NormalizeName(s) == Ok(Capitalize(m));
    assert m[0] == p[0];
    assert m[1..] == p[1..] + [ToUpper(c)] + q + [ToUpper(e)] + r;
    assert Capitalize(m) == [ToUpper(p[0])] + m[1..];
    assert [ToUpper(p[0])] + (p[1..] + [ToUpper(c)] + q + [ToUpper(e)] + r)
           == [ToUpper(p[0])] + p[1..] + [ToUpper(c)] + q + [ToUpper(e)] + r;
  }

  /** The degenerate names: "-" collapses to nothing and throws, "" does not. */
  lemma DegenerateNames()
    ensures NormalizeName("-") == Throws(IndexOutOfRange)
    ensures NormalizeName("") == Ok("")
  {
    assert Merge("-") == "";
  }

  /** A package whose find-package hint is `ZLIB` (zlib's) derives the name
      `ZLIB` verbatim, whatever its raw name. */
  lemma ZlibHint(d: ConanDependency)
    requires d.names.Some? && d.names.value.findPackageName == "ZLIB"
    ensures PreferredNameOf(d) == Ok("ZLIB")
  {
    assert IsIdentifier(d.names.value.findPackageName);
    IdentifierHint(d);
  }

  /** A dependency with the constructor defaults derives the empty name without
      throwing. */
  lemma DefaultDependencyName()
    ensures PreferredNameOf(NewConanDependency()) == Ok("")
  {
  }
}
