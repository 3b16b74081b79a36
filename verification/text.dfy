/**
 The few string operations the fetchers and the history store rely on, with
 Python's meaning: `str.split(sep)`, `sub in s` and `s.startswith(prefix)`.
 */
module Text {

  import opened Common

  /** `parts` glued back together with `sep` between consecutive parts. */
  function Join(parts: seq<string>, sep: char): string
    requires |parts| >= 1
    decreases |parts|
  {
    if |parts| == 1 then parts[0] else parts[0] + [sep] + Join(parts[1..], sep)
  }

  /** Python's `s.split(sep)` for a one-character separator: always at least
      one part, an empty part between adjacent separators and at either end. */
  function Split(s: string, sep: char): (parts: seq<string>)
    ensures |parts| >= 1
    ensures forall i | 0 <= i < |parts| :: sep !in parts[i]
    ensures Join(parts, sep) == s
    decreases |s|
  {
    if |s| == 0 then [""]
    else
      var rest := Split(s[1..], sep);
      if s[0] == sep then
        assert s == [sep] + s[1..];
        [""] + rest
      else
        var first := [s[0]] + rest[0];
        var parts := [first] + rest[1..];
        assert parts[1..] == rest[1..];
        assert |rest| > 1 ==> Join(rest, sep) == rest[0] + [sep] + Join(rest[1..], sep);
        assert s == [s[0]] + s[1..];
        parts
  }

  /** Splitting a join of separator-free parts gives the parts back: `Split`
      and `Join` are inverse on the values `Split` produces. */
  lemma {:induction false} SplitJoin(parts: seq<string>, sep: char)
    requires |parts| >= 1
    requires forall i | 0 <= i < |parts| :: sep !in parts[i]
    ensures Split(Join(parts, sep), sep) == parts
    decreases |parts|, |parts[0]|
  {
    var p := parts[0];
    if |parts| == 1 {
      SplitNoSep(p, sep);
    } else if |p| == 0 {
      var tail := Join(parts[1..], sep);
      assert Join(parts, sep) == [sep] + tail;
      SplitJoin(parts[1..], sep);
      assert ([sep] + tail)[1..] == tail;
      assert parts == [""] + parts[1..];
    } else {
      var shorter := [p[1..]] + parts[1..];
      assert shorter[1..] == parts[1..];
      assert forall i | 0 <= i < |shorter| :: sep !in shorter[i] by {
        forall i | 0 <= i < |shorter|
          ensures sep !in shorter[i]
        {
          if i == 0 {
            assert sep !in parts[0];
          } else {
            assert shorter[i] == parts[i];
          }
        }
      }
      SplitJoin(shorter, sep);
      var s := Join(parts, sep);
      assert Join(shorter, sep) == p[1..] + [sep] + Join(parts[1..], sep);
      assert s == p + [sep] + Join(parts[1..], sep);
      assert s[0] == p[0] && s[0] != sep;
      assert s[1..] == Join(shorter, sep);
      assert p == [p[0]] + p[1..];
      assert parts == [p] + parts[1..];
    }
  }

  /** A string without the separator splits into itself alone. */
  lemma {:induction false} SplitNoSep(s: string, sep: char)
    requires sep !in s
    ensures Split(s, sep) == [s]
    decreases |s|
  {
    if |s| > 0 {
      assert sep !in s[1..];
      SplitNoSep(s[1..], sep);
      assert s == [s[0]] + s[1..];
    }
  }

  /** Python's `sub in s`: `sub` occurs in `s` as a contiguous substring. */
  predicate Contains(s: string, sub: string)
    decreases |s|
  {
    sub <= s || (|s| > 0 && Contains(s[1..], sub))
  }

  /** Python's `s.startswith(prefix)`. */
  predicate StartsWith(s: string, prefix: string) {
    prefix <= s
  }

  /** The first of `rows` containing `sub`, as `[r for r in rows if sub in r][0]`
      guarded by an emptiness check. */
  function FirstContaining(rows: seq<string>, sub: string): (r: Option<string>)
    ensures r.None? <==> forall i | 0 <= i < |rows| :: !Contains(rows[i], sub)
    ensures r.Some? ==> exists i | 0 <= i < |rows| ::
      rows[i] == r.value && Contains(rows[i], sub) && forall j | 0 <= j < i :: !Contains(rows[j], sub)
    decreases |rows|
  {
    if |rows| == 0 then None
    else if Contains(rows[0], sub) then Some(rows[0])
    else
      var r := FirstContaining(rows[1..], sub);
      assert forall i | 1 <= i < |rows| :: rows[i] == rows[1..][i - 1];
      if r.Some? then
        ghost var k :| 0 <= k < |rows[1..]| && rows[1..][k] == r.value && Contains(rows[1..][k], sub)
                      && forall j | 0 <= j < k :: !Contains(rows[1..][j], sub);
        assert rows[k + 1] == r.value;
        assert forall j | 0 <= j < k + 1 :: !Contains(rows[j], sub) by {
          forall j | 0 <= j < k + 1
            ensures !Contains(rows[j], sub)
          {
            if j > 0 {
              assert rows[j] == rows[1..][j - 1];
            }
          }
        }
        r
      else
        r
  }
}
