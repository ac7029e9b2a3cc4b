/**
 * The two helpers of koboapi/utils.py that compute something: a
 * filesystem-safe name and a dotted-path lookup in nested dicts.
 */
module Utils {
  import opened Results
  import opened Dicts
  import opened JsonValues
  import opened Text

  // ---------------------------------------------------------------------
  // safe_filename
  // ---------------------------------------------------------------------

  /** The characters the filter keeps: `c.isalnum() or c in (' ', '-', '_')`. */
  predicate Kept(c: char) {
    IsAlnum(c) || c == ' ' || c == '-' || c == '_'
  }

  /** The characters a safe name is made of. */
  predicate SafeChar(c: char) {
    IsAlnum(c) || c == '-' || c == '_'
  }

  /** `"".join(c for c in s if Kept(c))`. */
  function Keep(s: string): string {
    if |s| == 0 then ""
    else (if Kept(s[0]) then [s[0]] else []) + Keep(s[1..])
  }

  /** `s.replace(a, b)` for one-character `a` and `b`. */
  function ReplaceChar(s: string, a: char, b: char): (r: string)
    ensures |r| == |s|
    ensures forall i :: 0 <= i < |s| ==> r[i] == if s[i] == a then b else s[i]
  {
    if |s| == 0 then ""
    else [if s[0] == a then b else s[0]] + ReplaceChar(s[1..], a, b)
  }

  /** Python's `s[:n]`: the first `n` elements, or all but the last `-n`
      when `n` is negative. */
  function SliceTo<T>(s: seq<T>, n: int): seq<T> {
    if n >= 0 then (if n <= |s| then s[..n] else s)
    else if |s| + n >= 0 then s[..|s| + n]
    else []
  }

  /** `safe_filename(name, max_length)`: the kept characters without the
      trailing spaces (after the filter, the only whitespace `rstrip()` can
      meet is a space), spaces turned into `_`, or `unnamed` when nothing is
      left; then cut to `max_length`. */
  function SafeFilename(name: string, maxLength: int): string {
    var stripped := RStrip(Keep(name), ' ');
    var safe := if stripped != "" then ReplaceChar(stripped, ' ', '_') else "unnamed";
    SliceTo(safe, maxLength)
  }

  /** `a` is `b` with some elements left out, the rest in their order. */
  predicate IsSubsequence<T(==)>(a: seq<T>, b: seq<T>) {
    if |a| == 0 then true
    else if |b| == 0 then false
    else if a[0] == b[0] then IsSubsequence(a[1..], b[1..])
    else IsSubsequence(a, b[1..])
  }

  /** The filter keeps exactly the allowed characters, in their order. */
  lemma {:induction false} KeepLaws(s: string)
    ensures forall c :: c in Keep(s) ==> Kept(c)
    ensures forall i :: 0 <= i < |s| && Kept(s[i]) ==> s[i] in Keep(s)
    ensures IsSubsequence(Keep(s), s)
  {
    if |s| > 0 {
      KeepLaws(s[1..]);
      forall i | 0 <= i < |s| && Kept(s[i])
        ensures s[i] in Keep(s)
      {
        if i > 0 {
          assert s[i] == s[1..][i - 1];
        }
      }
      if !Kept(s[0]) {
        assert Keep(s) == Keep(s[1..]);
      }
    }
  }

  /** A string of safe characters passes the filter unchanged. */
  lemma {:induction false} KeepSafe(s: string)
    requires forall i :: 0 <= i < |s| ==> SafeChar(s[i])
    ensures Keep(s) == s
  {
    if |s| > 0 {
      KeepSafe(s[1..]);
      assert s == [s[0]] + s[1..];
    }
  }

  /** A cut keeps a prefix and never exceeds a non-negative length. */
  lemma SliceToPrefix<T>(s: seq<T>, n: int)
    ensures |SliceTo(s, n)| <= |s| && SliceTo(s, n) == s[..|SliceTo(s, n)|]
    ensures n >= 0 ==> |SliceTo(s, n)| == if n <= |s| then n else |s|
  {
  }

  /** Every character of a safe name is a letter, a digit, `-` or `_`, and
      the name is never longer than a non-negative `max_length`. */
  lemma SafeFilenameChars(name: string, maxLength: int)
    ensures forall i :: 0 <= i < |SafeFilename(name, maxLength)| ==> SafeChar(SafeFilename(name, maxLength)[i])
    ensures maxLength >= 0 ==> |SafeFilename(name, maxLength)| <= maxLength
  {
    var kept := Keep(name);
    var stripped := RStrip(kept, ' ');
    var safe := if stripped != "" then ReplaceChar(stripped, ' ', '_') else "unnamed";
    KeepLaws(name);
    RStripLaws(kept, ' ');
    forall i | 0 <= i < |safe|
      ensures SafeChar(safe[i])
    {
      if stripped != "" {
        assert stripped[i] == kept[i] && kept[i] in kept;
      }
    }
    SliceToPrefix(safe, maxLength);
    var r := SafeFilename(name, maxLength);
    forall i | 0 <= i < |r|
      ensures SafeChar(r[i])
    {
      assert r[i] == safe[i];
    }
  }

  /** The kept characters keep their order: a safe name is a prefix of the
      filtered name with its trailing spaces removed and its spaces replaced,
      and the filtered name is a subsequence of the input. */
  lemma SafeFilenameOrder(name: string, maxLength: int)
    requires RStrip(Keep(name), ' ') != ""
    ensures var full := ReplaceChar(RStrip(Keep(name), ' '), ' ', '_');
      |SafeFilename(name, maxLength)| <= |full| && SafeFilename(name, maxLength) == full[..|SafeFilename(name, maxLength)|]
    ensures IsSubsequence(Keep(name), name)
  {
    KeepLaws(name);
    SliceToPrefix(ReplaceChar(RStrip(Keep(name), ' '), ' ', '_'), maxLength);
  }

  /** When nothing but spaces passes the filter, the name is `unnamed`, cut
      to `max_length`. */
  lemma SafeFilenameUnnamed(name: string, maxLength: int)
    requires forall i :: 0 <= i < |name| && Kept(name[i]) ==> name[i] == ' '
    ensures SafeFilename(name, maxLength) == SliceTo("unnamed", maxLength)
  {
    AllSpacesStrip(name);
  }

  lemma {:induction false} AllSpacesStrip(name: string)
    requires forall i :: 0 <= i < |name| && Kept(name[i]) ==> name[i] == ' '
    ensures RStrip(Keep(name), ' ') == ""
  {
    if |name| > 0 {
      AllSpacesStrip(name[1..]);
      if Kept(name[0]) {
        assert Keep(name) == [' '] + Keep(name[1..]);
        AllSpacesStripCons(Keep(name[1..]));
      } else {
        assert Keep(name) == Keep(name[1..]);
      }
    }
  }

  lemma AllSpacesStripCons(s: string)
    requires RStrip(s, ' ') == ""
    ensures RStrip([' '] + s, ' ') == ""
  {
    RStripLaws(s, ' ');
    forall i | 0 <= i < |s|
      ensures s[i] == ' '
    {
    }
    AllSpaces(([' '] + s));
  }

  lemma {:induction false} AllSpaces(s: string)
    requires forall i :: 0 <= i < |s| ==> s[i] == ' '
    ensures RStrip(s, ' ') == ""
  {
    if |s| > 0 {
      AllSpaces(s[..|s| - 1]);
    }
  }

  /** With a non-negative `max_length`, making a safe name safe again changes
      nothing. */
  lemma SafeFilenameIdempotent(name: string, maxLength: int)
    requires maxLength >= 0
    ensures SafeFilename(SafeFilename(name, maxLength), maxLength) == SafeFilename(name, maxLength)
  {
    var r := SafeFilename(name, maxLength);
    SafeFilenameChars(name, maxLength);
    KeepSafe(r);
    if |r| > 0 {
      assert r[|r| - 1] != ' ' by {
        assert SafeChar(r[|r| - 1]);
      }
      assert RStrip(r, ' ') == r;
      assert ReplaceChar(r, ' ', '_') == r by {
        forall i | 0 <= i < |r|
          ensures r[i] != ' '
        {
          assert SafeChar(r[i]);
        }
      }
    }
  }

  /** With a negative `max_length` the cut drops characters from the end, so
      a second pass cuts again: the empty name gives `unname`, which gives
      `unnam`. */
  lemma SafeFilenameNegativeCut()
    ensures SafeFilename("", -1) == "unname"
    ensures SafeFilename("unname", -1) == "unnam"
  {
    assert Keep("unname") == "unname" by {
      KeepSafe("unname");
    }
    assert RStrip("unname", ' ') == "unname";
  }

  // ---------------------------------------------------------------------
  // get_nested_value
  // ---------------------------------------------------------------------

  /** Following `keys` one after another from `current`. */
  function Follow(current: Json, keys: seq<string>): Result<Json>
    decreases |keys|
  {
    if |keys| == 0 then Ok(current)
    else
      var next :- Subscript(current, keys[0]);
      Follow(next, keys[1..])
  }

  /** Following a path in two parts is following the first part and then,
      from where it ends, the second. */
  lemma {:induction false} FollowAppend(current: Json, a: seq<string>, b: seq<string>)
    ensures Follow(current, a + b) ==
      if Follow(current, a).Ok? then Follow(Follow(current, a).value, b) else Follow(current, a)
    decreases |a|
  {
    if |a| > 0 {
      assert (a + b)[0] == a[0] && (a + b)[1..] == a[1..] + b;
      var next := Subscript(current, a[0]);
      if next.Ok? {
        FollowAppend(next.value, a[1..], b);
      }
    } else {
      assert a + b == b;
    }
  }

  /** The value `get_nested_value` returns for a followed path. */
  function NestedValue(data: Obj, path: string, default: Json): Json {
    var r := Follow(JObj(data), Split(path, '.'));
    if r.Ok? then r.value else default
  }

  /** A path without `.` looks up one key: `data.get(path, default)`. */
  lemma NestedValueSingle(data: Obj, path: string, default: Json)
    requires '.' !in path
    ensures NestedValue(data, path, default) == Get(data, path).GetOr(default)
  {
    SplitPieces(path, '.');
    JoinSplit(path, '.');
    var keys := Split(path, '.');
    assert |keys| == 1 && keys[0] == path;
    assert keys[1..] == [];
    var step := Subscript(JObj(data), path);
    if step.Ok? {
      assert Follow(step.value, keys[1..]) == Ok(step.value);
    }
  }

  /** `get_nested_value(data, path, default)`: follow the keys of the dotted
      path; a missing key or a value that is not a dict on the way gives
      `default`. */
  method GetNestedValue(data: Obj, path: string, default: Json) returns (r: Json)
    ensures r == NestedValue(data, path, default)
  {
    var keys := Split(path, '.');
    var current := JObj(data);
    for i := 0 to |keys|
      invariant Follow(JObj(data), keys) == Follow(current, keys[i..])
    {
      var next := Subscript(current, keys[i]);
      assert keys[i..][1..] == keys[i + 1..];
      if next.Err? {
        return default;
      }
      current := next.value;
    }
    r := current;
  }
}
