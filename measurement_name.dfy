/** The InfluxDB measurement name of a reading: `lowercase(id + "_" + name)`
    with every maximal run of whitespace (regex `\s+`) replaced by one `-`. */
module MeasurementName {

  /** Regex `\s` in Unicode mode: the characters with the Unicode White_Space property. */
  predicate IsWhitespace(c: char) {
    || '\t' <= c <= '\r'
    || c == ' '
    || c == '\U{85}'
    || c == '\U{A0}'
    || c == '\U{1680}'
    || '\U{2000}' <= c <= '\U{200A}'
    || c == '\U{2028}'
    || c == '\U{2029}'
    || c == '\U{202F}'
    || c == '\U{205F}'
    || c == '\U{3000}'
  }

  predicate NoWhitespace(s: string) {
    forall i :: 0 <= i < |s| ==> !IsWhitespace(s[i])
  }

  predicate AllWhitespace(s: string) {
    forall i :: 0 <= i < |s| ==> IsWhitespace(s[i])
  }

  /** Lower-casing of one character, restricted to ASCII letters. */
  function ToLower(c: char): (r: char)
    ensures 'A' <= c <= 'Z' ==> r as int == c as int + 32
    ensures !('A' <= c <= 'Z') ==> r == c
    ensures IsWhitespace(r) <==> IsWhitespace(c)
  {
    if 'A' <= c <= 'Z' then (c as int + 32) as char else c
  }

  /** `str::to_lowercase` (ASCII letters only): same length, each character lower-cased. */
  function Lowercase(s: string): (r: string)
    ensures |r| == |s|
    ensures forall i :: 0 <= i < |s| ==> r[i] == ToLower(s[i])
  {
    seq(|s|, i requires 0 <= i < |s| => ToLower(s[i]))
  }

  /** The suffix of `s` left after its leading whitespace run. */
  function DropLeadingWhitespace(s: string): (r: string)
    ensures |r| <= |s|
    ensures r == [] || !IsWhitespace(r[0])
  {
    if s != [] && IsWhitespace(s[0]) then DropLeadingWhitespace(s[1..]) else s
  }

  /** `WHITESPACE.replace_all(s, "-")` with `WHITESPACE = \s+`: the leftmost
      greedy match is a maximal whitespace run, and each becomes one `-`. */
  function CollapseWhitespace(s: string): (r: string)
    ensures NoWhitespace(r)
    ensures |r| <= |s|
    decreases |s|
  {
    if s == [] then []
    else if !IsWhitespace(s[0]) then [s[0]] + CollapseWhitespace(s[1..])
    else "-" + CollapseWhitespace(DropLeadingWhitespace(s[1..]))
  }

  /** The measurement name built at sink_influxdb.rs for one reading. */
  function Name(id: string, name: string): (r: string)
    ensures NoWhitespace(r)
  {
    CollapseWhitespace(Lowercase(id + "_" + name))
  }

  /** Text with no whitespace is left as it is. */
  lemma {:induction false} CollapseIdentity(s: string)
    requires NoWhitespace(s)
    ensures CollapseWhitespace(s) == s
  {
    if s != [] {
      CollapseIdentity(s[1..]);
    }
  }

  /** Sanitising twice is the same as sanitising once. */
  lemma CollapseIdempotent(s: string)
    ensures CollapseWhitespace(CollapseWhitespace(s)) == CollapseWhitespace(s)
  {
    CollapseIdentity(CollapseWhitespace(s));
  }

  /** A non-empty whitespace run on its own becomes exactly one `-`. */
  lemma CollapseRun(w: string)
    requires |w| > 0 && AllWhitespace(w)
    ensures CollapseWhitespace(w) == "-"
  {
    DropAllWhitespace(w[1..]);
  }

  lemma {:induction false} DropAllWhitespace(w: string)
    requires AllWhitespace(w)
    ensures DropLeadingWhitespace(w) == []
  {
    if w != [] {
      DropAllWhitespace(w[1..]);
    }
  }

  /** Dropping leading whitespace stops at the first non-whitespace character. */
  lemma {:induction false} DropLeadingWhitespaceAppend(a: string, b: string)
    requires b != [] && !IsWhitespace(b[0])
    ensures DropLeadingWhitespace(a + b) == DropLeadingWhitespace(a) + b
  {
    if a == [] {
      assert a + b == b;
    } else if IsWhitespace(a[0]) {
      assert (a + b)[1..] == a[1..] + b;
      DropLeadingWhitespaceAppend(a[1..], b);
    }
  }

  /** A non-whitespace character splits the sanitisation: runs on either side
      of it are replaced independently and the character is kept. Together
      with CollapseRun and CollapseIdentity this determines the result on
      every input, since every string is a concatenation of whitespace runs
      and non-whitespace characters. */
  lemma {:induction false} CollapseSplit(a: string, c: char, b: string)
    requires !IsWhitespace(c)
    ensures CollapseWhitespace(a + [c] + b) == CollapseWhitespace(a) + [c] + CollapseWhitespace(b)
    decreases |a|
  {
    var s := a + [c] + b;
    if a == [] {
      assert s == [c] + b;
    } else if !IsWhitespace(a[0]) {
      assert s[0] == a[0] && s[1..] == a[1..] + [c] + b;
      CollapseSplit(a[1..], c, b);
      calc {
        CollapseWhitespace(s);
        [a[0]] + CollapseWhitespace(a[1..] + [c] + b);
        [a[0]] + (CollapseWhitespace(a[1..]) + [c] + CollapseWhitespace(b));
        ([a[0]] + CollapseWhitespace(a[1..])) + [c] + CollapseWhitespace(b);
      }
    } else {
      var d := DropLeadingWhitespace(a[1..]);
      assert s[0] == a[0] && s[1..] == a[1..] + ([c] + b);
      DropLeadingWhitespaceAppend(a[1..], [c] + b);
      assert d + ([c] + b) == d + [c] + b;
      CollapseSplit(d, c, b);
      calc {
        CollapseWhitespace(s);
        "-" + CollapseWhitespace(d + [c] + b);
        "-" + (CollapseWhitespace(d) + [c] + CollapseWhitespace(b));
        ("-" + CollapseWhitespace(d)) + [c] + CollapseWhitespace(b);
      }
    }
  }

  /** Lower-casing and whitespace replacement commute, so the name is also the
      lower-cased sanitised `id_name`. */
  lemma {:induction false} CollapseLowercase(s: string)
    ensures CollapseWhitespace(Lowercase(s)) == Lowercase(CollapseWhitespace(s))
    decreases |s|
  {
    if s != [] {
      assert Lowercase(s)[1..] == Lowercase(s[1..]);
      if !IsWhitespace(s[0]) {
        CollapseLowercase(s[1..]);
      } else {
        DropLowercase(s[1..]);
        CollapseLowercase(DropLeadingWhitespace(s[1..]));
      }
    }
  }

  lemma {:induction false} DropLowercase(s: string)
    ensures DropLeadingWhitespace(Lowercase(s)) == Lowercase(DropLeadingWhitespace(s))
  {
    if s != [] && IsWhitespace(s[0]) {
      assert Lowercase(s)[1..] == Lowercase(s[1..]);
      DropLowercase(s[1..]);
    }
  }

  /** id `"A 1"` and name `"Flow  Rate"` give `a-1_flow-rate`. */
  lemma NameExample()
    ensures Name("A 1", "Flow  Rate") == "a-1_flow-rate"
  {
    assert "A 1" + "_" + "Flow  Rate" == "A 1_Flow  Rate";
    LowercaseExample();
    CollapseExample();
  }

  lemma LowercaseExample()
    ensures Lowercase("A 1_Flow  Rate") == "a 1_flo" + ['w'] + "  rate"
  {
  }

  lemma CollapseExample()
    ensures CollapseWhitespace("a 1_flo" + ['w'] + "  rate") == "a-1_flow-rate"
  {
    CollapseExampleHead();
    CollapseExampleTail();
    CollapseSplit("a 1_flo", 'w', "  rate");
    assert "a-1_flo" + ['w'] + "-rate" == "a-1_flow-rate";
  }

  lemma CollapseExampleHead()
    ensures CollapseWhitespace("a 1_flo") == "a-1_flo"
  {
    assert "a 1_flo" == "a " + ['1'] + "_flo";
    CollapseSplit("a ", '1', "_flo");
    CollapseExampleFirstWord();
    CollapseIdentity("_flo");
    assert "a-" + ['1'] + "_flo" == "a-1_flo";
  }

  lemma CollapseExampleFirstWord()
    ensures CollapseWhitespace("a ") == "a-"
  {
    assert "a " == [] + ['a'] + " ";
    CollapseSplit([], 'a', " ");
    CollapseRun(" ");
  }

  lemma CollapseExampleTail()
    ensures CollapseWhitespace("  rate") == "-rate"
  {
    assert "  rate" == "  " + ['r'] + "ate";
    CollapseSplit("  ", 'r', "ate");
    CollapseRun("  ");
    CollapseIdentity("ate");
  }
}
