/** The two `str` operations the label-file checks apply to every line:
    `line.rstrip()` and `.split("\t")`, with Python's semantics. */
module Text {

  /** Python's `str.isspace` on one character: exactly the characters that
      `rstrip()` without an argument removes. */
  predicate IsSpace(c: char)
  {
    || c == ' '
    || '\t' <= c <= '\r'
    || '\U{1c}' <= c <= '\U{1f}'
    || c == '\U{85}' || c == '\U{a0}' || c == '\U{1680}'
    || '\U{2000}' <= c <= '\U{200a}'
    || c == '\U{2028}' || c == '\U{2029}' || c == '\U{202f}' || c == '\U{205f}'
    || c == '\U{3000}'
  }

  /** `s.rstrip()`: the longest prefix of `s` that does not end in whitespace. */
  function RStrip(s: string): (r: string)
    ensures |r| <= |s| && r == s[..|r|]
    ensures forall i :: |r| <= i < |s| ==> IsSpace(s[i])
    ensures |r| == 0 || !IsSpace(r[|r| - 1])
  {
    if |s| > 0 && IsSpace(s[|s| - 1]) then RStrip(s[..|s| - 1]) else s
  }

  /** The inverse of `Split`: `sep.join(fields)`. */
  function Join(fields: seq<string>, sep: char): string
    requires |fields| >= 1
  {
    if |fields| == 1 then fields[0]
    else Join(fields[..|fields| - 1], sep) + [sep] + fields[|fields| - 1]
  }

  lemma JoinExtendLast(fields: seq<string>, sep: char, c: char)
    requires |fields| >= 1
    ensures Join(fields[..|fields| - 1] + [fields[|fields| - 1] + [c]], sep) == Join(fields, sep) + [c]
  {
    var m := |fields|;
    var g := fields[..m - 1] + [fields[m - 1] + [c]];
    if m > 1 {
      assert g[..m - 1] == fields[..m - 1];
    }
  }

  lemma JoinAppendField(fields: seq<string>, sep: char, f: string)
    requires |fields| >= 1
    ensures Join(fields + [f], sep) == Join(fields, sep) + [sep] + f
  {
    assert (fields + [f])[..|fields|] == fields;
  }

  /** One more character of the input: a separator opens a new empty
      field, anything else extends the last one. */
  function Extend(fields: seq<string>, c: char, sep: char): (r: seq<string>)
    requires |fields| >= 1
    ensures |r| >= 1
  {
    if c == sep then fields + [""]
    else fields[..|fields| - 1] + [fields[|fields| - 1] + [c]]
  }

  /** `s.split(sep)`: the maximal separator-free pieces between separators,
      empty pieces included; never the empty list, and no field holds the
      separator. */
  function Split(s: string, sep: char): (fields: seq<string>)
    ensures |fields| >= 1
    ensures forall i :: 0 <= i < |fields| ==> sep !in fields[i]
    decreases |s|
  {
    if |s| == 0 then [""] else Extend(Split(s[..|s| - 1], sep), s[|s| - 1], sep)
  }

  /** Joining the fields with the separator gives back the input. */
  lemma {:induction false} SplitFields(s: string, sep: char)
    ensures Join(Split(s, sep), sep) == s
    decreases |s|
  {
    if |s| > 0 {
      var init := s[..|s| - 1];
      var c := s[|s| - 1];
      var prev := Split(init, sep);
      SplitFields(init, sep);
      assert s == init + [c];
      if c == sep {
        JoinAppendField(prev, sep, "");
      } else {
        JoinExtendLast(prev, sep, c);
      }
    }
  }

  lemma DropLastAppend(f: seq<string>)
    requires |f| >= 1
    ensures f[..|f| - 1] + [f[|f| - 1]] == f
  {
  }

  lemma SplitSnoc(s: string, c: char, sep: char)
    ensures Split(s + [c], sep) == Extend(Split(s, sep), c, sep)
  {
    assert (s + [c])[..|s|] == s;
  }

  lemma ExtendPlain(f: seq<string>, z: string, c: char, sep: char)
    requires |f| >= 1 && c != sep
    ensures Extend(f[..|f| - 1] + [f[|f| - 1] + z], c, sep) == f[..|f| - 1] + [f[|f| - 1] + (z + [c])]
  {
    var g := f[..|f| - 1] + [f[|f| - 1] + z];
    assert g[..|g| - 1] == f[..|f| - 1];
    assert (f[|f| - 1] + z) + [c] == f[|f| - 1] + (z + [c]);
  }

  /** Appending separator-free text only extends the last field. */
  lemma {:induction false} SplitAppendPlain(x: string, y: string, sep: char)
    requires sep !in y
    ensures var f := Split(x, sep);
      Split(x + y, sep) == f[..|f| - 1] + [f[|f| - 1] + y]
    decreases |y|
  {
    var f := Split(x, sep);
    if |y| == 0 {
      assert x + y == x;
      assert f[|f| - 1] + y == f[|f| - 1];
      DropLastAppend(f);
    } else {
      var y' := y[..|y| - 1];
      var c := y[|y| - 1];
      assert y' + [c] == y;
      SplitAppendPlain(x, y', sep);
      SplitSnoc(x + y', c, sep);
      assert (x + y') + [c] == x + y;
      ExtendPlain(f, y', c, sep);
    }
  }

  /** Separator-free text is a single field. */
  lemma SplitPlain(f: string, sep: char)
    requires sep !in f
    ensures Split(f, sep) == [f]
  {
    SplitAppendPlain("", f, sep);
    assert "" + f == f;
  }

  /** One more separator-free field after a join that splits back. */
  lemma SplitJoinSnoc(init: seq<string>, last: string, sep: char)
    requires |init| >= 1 && sep !in last
    requires Split(Join(init, sep), sep) == init
    ensures Split(Join(init + [last], sep), sep) == init + [last]
  {
    var m := |init|;
    var x := Join(init, sep) + [sep];
    assert Split(x, sep) == init + [""] by {
      assert x[..|x| - 1] == Join(init, sep);
    }
    SplitAppendPlain(x, last, sep);
    assert (init + [""])[..m] == init;
    assert (init + [""])[m] + last == last;
    assert (init + [last])[..m] == init;
    assert Join(init + [last], sep) == x + last;
  }

  /** Splitting undoes joining when no field holds the separator. */
  lemma {:induction false} SplitJoin(fields: seq<string>, sep: char)
    requires |fields| >= 1
    requires forall i :: 0 <= i < |fields| ==> sep !in fields[i]
    ensures Split(Join(fields, sep), sep) == fields
    decreases |fields|
  {
    var m := |fields|;
    if m == 1 {
      SplitPlain(fields[0], sep);
    } else {
      var init := fields[..m - 1];
      SplitJoin(init, sep);
      SplitJoinSnoc(init, fields[m - 1], sep);
      DropLastAppend(fields);
    }
  }

  /** The number of fields is one more than the number of separators. */
  lemma {:induction false} SplitCount(s: string, sep: char)
    ensures |Split(s, sep)| == multiset(s)[sep] + 1
    decreases |s|
  {
    if |s| > 0 {
      var init := s[..|s| - 1];
      SplitCount(init, sep);
      assert s == init + [s[|s| - 1]];
      assert multiset(s) == multiset(init) + multiset{s[|s| - 1]};
    }
  }
}
