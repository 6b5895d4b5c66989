/** `String.prototype.split` with a one-character string separator, as the
    bearer-header gate uses it: every occurrence of the separator cuts the
    string, so two adjacent separators produce an empty part and a leading
    or trailing separator produces an empty first or last part. */
module StringSplit {

  /** Number of occurrences of `c` in `s`. */
  function Count(s: string, c: char): nat {
    if |s| == 0 then 0 else (if s[0] == c then 1 else 0) + Count(s[1..], c)
  }

  /** The parts of `s` between occurrences of `sep`, left to right. */
  function Split(s: string, sep: char): (parts: seq<string>)
    ensures |parts| >= 1
  {
    if |s| == 0 then [""]
    else
      var rest := Split(s[1..], sep);
      if s[0] == sep then [""] + rest
      else [[s[0]] + rest[0]] + rest[1..]
  }

  /** Glue the parts back together with `sep` between consecutive parts. */
  function Join(parts: seq<string>, sep: char): string
    requires |parts| >= 1
  {
    if |parts| == 1 then parts[0] else parts[0] + [sep] + Join(parts[1..], sep)
  }

  predicate NoSep(parts: seq<string>, sep: char) {
    forall i :: 0 <= i < |parts| ==> sep !in parts[i]
  }

  /** Split yields one more part than there are separators, no part holds a
      separator, and joining the parts restores the string. */
  lemma {:induction false} SplitJoin(s: string, sep: char)
    ensures |Split(s, sep)| == Count(s, sep) + 1
    ensures NoSep(Split(s, sep), sep)
    ensures Join(Split(s, sep), sep) == s
    decreases |s|
  {
    if |s| == 0 {
    } else {
      var rest := Split(s[1..], sep);
      SplitJoin(s[1..], sep);
      if s[0] == sep {
        assert Split(s, sep) == [""] + rest;
        assert ([""] + rest)[1..] == rest;
        assert s == [] + [sep] + s[1..];
      } else {
        var parts := Split(s, sep);
        assert parts == [[s[0]] + rest[0]] + rest[1..];
        assert parts[0] == [s[0]] + rest[0];
        assert parts[1..] == rest[1..];
        forall i | 0 <= i < |parts|
          ensures sep !in parts[i]
        {
          if i > 0 {
            assert parts[i] == rest[i];
          }
        }
        if |rest| == 1 {
          assert Join(parts, sep) == [s[0]] + rest[0];
        } else {
          assert Join(rest, sep) == rest[0] + [sep] + Join(rest[1..], sep);
          assert Join(parts, sep) == parts[0] + [sep] + Join(rest[1..], sep);
        }
        assert s == [s[0]] + s[1..];
      }
    }
  }

  /** The converse round trip: parts free of the separator come back
      unchanged from splitting their join, so Split is the one way to cut a
      string into separator-free parts. */
  lemma {:induction false} JoinSplit(parts: seq<string>, sep: char)
    requires |parts| >= 1
    requires NoSep(parts, sep)
    ensures Split(Join(parts, sep), sep) == parts
    decreases |parts|, |parts[0]|
  {
    if |parts[0]| == 0 {
      if |parts| == 1 {
        assert Join(parts, sep) == "";
      } else {
        var tail := parts[1..];
        assert NoSep(tail, sep) by {
          forall i | 0 <= i < |tail| ensures sep !in tail[i] {
            assert tail[i] == parts[i + 1];
          }
        }
        JoinSplit(tail, sep);
        var s := Join(parts, sep);
        assert s == [sep] + Join(tail, sep);
        assert s[1..] == Join(tail, sep);
        assert parts == [""] + tail;
      }
    } else {
      var c := parts[0][0];
      assert c in parts[0];
      var shorter := [parts[0][1..]] + parts[1..];
      assert NoSep(shorter, sep) by {
        forall i | 0 <= i < |shorter| ensures sep !in shorter[i] {
          if i == 0 {
            assert forall x :: x in parts[0][1..] ==> x in parts[0];
          } else {
            assert shorter[i] == parts[i];
          }
        }
      }
      JoinSplit(shorter, sep);
      var s := Join(parts, sep);
      assert shorter[1..] == parts[1..];
      if |parts| == 1 {
        assert s == parts[0];
        assert Join(shorter, sep) == parts[0][1..];
      } else {
        assert s == parts[0] + [sep] + Join(parts[1..], sep);
        assert Join(shorter, sep) == parts[0][1..] + [sep] + Join(parts[1..], sep);
      }
      assert s[0] == c && s[1..] == Join(shorter, sep);
      var rest := Split(s[1..], sep);
      assert rest == shorter;
      assert [c] + parts[0][1..] == parts[0];
      assert parts == [[c] + rest[0]] + rest[1..];
    }
  }

  /** Splitting on `sep` gives exactly two parts iff the string holds the
      separator exactly once, and then the parts are what lies before and
      after it. */
  lemma TwoPartsIff(s: string, sep: char)
    ensures |Split(s, sep)| == 2 <==> Count(s, sep) == 1
    ensures |Split(s, sep)| == 2 ==>
      s == Split(s, sep)[0] + [sep] + Split(s, sep)[1]
  {
    SplitJoin(s, sep);
    var parts := Split(s, sep);
    if |parts| == 2 {
      assert Join(parts[1..], sep) == parts[1];
    }
  }
}
