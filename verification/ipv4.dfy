/**
 * The dotted-quad shape test used by the validate endpoint: the regular
 * expression `^(\d{1,3}\.){3}\d{1,3}$` applied with `RegExp.prototype.test`.
 * Without the `u` or `m` flags `\d` is the ASCII digits only and `$` is the
 * very end of the input, so the test accepts exactly four '.'-separated
 * groups of one to three ASCII digits. There is no 0-255 range check and no
 * leading-zero rule.
 */
module Ipv4 {

  predicate IsDigit(c: char) { '0' <= c <= '9' }

  predicate AllDigits(s: string) { forall i :: 0 <= i < |s| ==> IsDigit(s[i]) }

  /** What one `\d{1,3}` of the pattern matches. */
  predicate IsGroup(g: string) { 1 <= |g| <= 3 && AllDigits(g) }

  /**
   * The matcher for the pattern, one character at a time: `dots` separators
   * have been consumed and the group being read has `run` digits so far.
   * Digits and '.' are disjoint, so the regular expression never needs to
   * backtrack and this left-to-right scan is the whole of its behaviour.
   */
  predicate Scan(s: string, dots: nat, run: nat)
    decreases |s|
  {
    if s == [] then dots == 3 && 1 <= run
    else if IsDigit(s[0]) then run < 3 && Scan(s[1..], dots, run + 1)
    else if s[0] == '.' then dots < 3 && 1 <= run && Scan(s[1..], dots + 1, 0)
    else false
  }

  /**
   * `/^(\d{1,3}\.){3}\d{1,3}$/.test(s)`: accepts exactly the strings that
   * split on '.' into four groups of 1-3 digits.
   */
  predicate IsIpv4Shape(s: string): (b: bool)
    ensures b <==> |Split(s)| == 4 && forall i :: 0 <= i < 4 ==> IsGroup(Split(s)[i])
  {
    ScanBySplit(s, 0, 0);
    Scan(s, 0, 0)
  }

  /** `s.split('.')`: the pieces between the dots, empty pieces included. */
  function Split(s: string): (parts: seq<string>)
    ensures |parts| >= 1
    ensures forall i :: 0 <= i < |parts| ==> '.' !in parts[i]
    decreases |s|
  {
    if s == [] then [""]
    else if s[0] == '.' then [""] + Split(s[1..])
    else
      var rest := Split(s[1..]);
      [[s[0]] + rest[0]] + rest[1..]
  }

  /** `parts.join('.')` */
  function JoinDots(parts: seq<string>): (s: string)
    requires |parts| >= 1
    decreases |parts|
  {
    if |parts| == 1 then parts[0] else parts[0] + "." + JoinDots(parts[1..])
  }

  /** Joining the pieces of a split gives the string back. */
  lemma {:induction false} JoinSplit(s: string)
    ensures JoinDots(Split(s)) == s
    decreases |s|
  {
    if s == [] {
    } else if s[0] == '.' {
      JoinSplit(s[1..]);
      assert s == "." + s[1..];
    } else {
      var rest := Split(s[1..]);
      JoinSplit(s[1..]);
      if |rest| == 1 {
        assert Split(s) == [[s[0]] + rest[0]];
      } else {
        calc {
          JoinDots(Split(s));
          ([s[0]] + rest[0]) + "." + JoinDots(rest[1..]);
          [s[0]] + (rest[0] + "." + JoinDots(rest[1..]));
          [s[0]] + JoinDots(rest);
          s;
        }
      }
    }
  }

  /** A dot-free prefix extends the first piece of a split. */
  lemma {:induction false} SplitDotFreePrefix(a: string, t: string)
    requires '.' !in a
    ensures Split(a + t) == [a + Split(t)[0]] + Split(t)[1..]
    decreases |a|
  {
    if a != [] {
      var st, r := Split(t), Split(a[1..] + t);
      SplitDotFreePrefix(a[1..], t);
      assert r == [a[1..] + st[0]] + st[1..];
      assert (a + t)[0] == a[0] && a[0] != '.';
      assert (a + t)[1..] == a[1..] + t;
      assert Split(a + t) == [[a[0]] + r[0]] + r[1..];
      assert [a[0]] + (a[1..] + st[0]) == a + st[0];
    } else {
      assert a + t == t && a + Split(t)[0] == Split(t)[0];
      assert [Split(t)[0]] + Split(t)[1..] == Split(t);
    }
  }

  /** Splitting a join of dot-free pieces gives the pieces back. */
  lemma {:induction false} SplitJoin(parts: seq<string>)
    requires |parts| >= 1
    requires forall i :: 0 <= i < |parts| ==> '.' !in parts[i]
    ensures Split(JoinDots(parts)) == parts
    decreases |parts|
  {
    if |parts| == 1 {
      SplitDotFreePrefix(parts[0], "");
      assert Split("") == [""];
      assert parts[0] + "" == parts[0];
      assert parts == [parts[0]];
    } else {
      var tail := JoinDots(parts[1..]);
      SplitJoin(parts[1..]);
      SplitDotFreePrefix(parts[0], "." + tail);
      assert ("." + tail)[0] == '.' && ("." + tail)[1..] == tail;
      assert Split("." + tail) == [""] + parts[1..];
      assert parts[0] + "." + tail == parts[0] + ("." + tail);
      assert JoinDots(parts) == parts[0] + ("." + tail);
      assert parts[0] + "" == parts[0];
      assert parts == [parts[0]] + parts[1..];
    }
  }

  /**
   * The matcher in terms of the split: with `dots` groups already closed and
   * `run` digits read into the open one, the rest is accepted exactly when it
   * finishes the open group and then supplies the remaining whole groups.
   */
  lemma {:induction false} ScanBySplit(s: string, dots: nat, run: nat)
    requires run <= 3
    ensures Scan(s, dots, run) <==>
      var p := Split(s);
      && dots + |p| == 4
      && 1 <= run + |p[0]| <= 3
      && AllDigits(p[0])
      && forall i :: 1 <= i < |p| ==> IsGroup(p[i])
    decreases |s|
  {
    if s == [] {
    } else if IsDigit(s[0]) {
      var r := Split(s[1..]);
      var p := Split(s);
      assert p == [[s[0]] + r[0]] + r[1..];
      if run < 3 {
        ScanBySplit(s[1..], dots, run + 1);
      }
      assert AllDigits([s[0]] + r[0]) <==> AllDigits(r[0]) by {
        if AllDigits(r[0]) {
          forall i | 0 <= i < |[s[0]] + r[0]| ensures IsDigit(([s[0]] + r[0])[i]) {
            if i > 0 { assert ([s[0]] + r[0])[i] == r[0][i - 1]; }
          }
        }
        if AllDigits([s[0]] + r[0]) {
          forall i | 0 <= i < |r[0]| ensures IsDigit(r[0][i]) {
            assert ([s[0]] + r[0])[i + 1] == r[0][i];
          }
        }
      }
      forall i | 1 <= i < |p| ensures p[i] == r[i] { }
    } else if s[0] == '.' {
      var r := Split(s[1..]);
      var p := Split(s);
      assert p == [""] + r;
      ScanBySplit(s[1..], dots + 1, 0);
      forall i | 1 <= i < |p| ensures p[i] == r[i - 1] { }
      if Scan(s, dots, run) {
        forall i | 1 <= i < |p| ensures IsGroup(p[i]) {
          assert p[i] == r[i - 1];
        }
      }
      if dots + |p| == 4 && 1 <= run && forall i :: 1 <= i < |p| ==> IsGroup(p[i]) {
        assert IsGroup(p[1]);
        forall i | 1 <= i < |r| ensures IsGroup(r[i]) {
          assert r[i] == p[i + 1];
        }
      }
    } else {
      var r := Split(s[1..]);
      assert Split(s)[0] == [s[0]] + r[0];
      assert Split(s)[0][0] == s[0];
    }
  }

  /** The regular expression's own reading: `s` is four digit groups joined by '.'. */
  lemma ShapeIffFourGroups(s: string)
    ensures IsIpv4Shape(s) <==>
      exists parts: seq<string> ::
        |parts| == 4 && (forall i :: 0 <= i < 4 ==> IsGroup(parts[i])) && JoinDots(parts) == s
  {
    if IsIpv4Shape(s) {
      JoinSplit(s);
      assert JoinDots(Split(s)) == s;
    }
    if exists parts: seq<string> ::
         |parts| == 4 && (forall i :: 0 <= i < 4 ==> IsGroup(parts[i])) && JoinDots(parts) == s
    {
      var parts: seq<string> :|
        |parts| == 4 && (forall i :: 0 <= i < 4 ==> IsGroup(parts[i])) && JoinDots(parts) == s;
      forall i | 0 <= i < |parts| ensures '.' !in parts[i] {
        assert IsGroup(parts[i]);
      }
      SplitJoin(parts);
    }
  }

  /** The address the endpoint test sends is accepted. */
  lemma AcceptsTestAddress()
    ensures IsIpv4Shape("192.168.1.1")
  {
  }

  /** No range check: every group may be 999. */
  lemma AcceptsOutOfRange()
    ensures IsIpv4Shape("999.999.999.999")
  {
    var parts := ["999", "999", "999", "999"];
    assert forall i :: 0 <= i < 4 ==> IsGroup(parts[i]) && '.' !in parts[i];
    SplitJoin(parts);
    assert JoinDots(parts) == "999.999.999.999";
  }

  /** Letters, three groups and a four-digit group are all rejected. */
  lemma RejectsMalformed()
    ensures !IsIpv4Shape("abc")
    ensures !IsIpv4Shape("1.2.3")
    ensures !IsIpv4Shape("1234.1.1.1")
  {
  }
}
