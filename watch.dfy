/**
 * Resolution of watch-list names against the paths of the watchable variables: a name may
 * carry one `[N]` particle selector, which is cut out of the name before the comparison and
 * then parsed and bounds-checked for every path it matches.
 */
module Watch {
  import opened Wrappers
  import opened JavaInt
  import opened Scene

  type String = seq<char>

  /** The exceptions that abort the resolution. */
  datatype WatchError =
    | StringIndexOutOfBounds   // a `]` before the first `[`, or none at all
    | NumberFormat             // the selector is not a decimal int
    | IllegalArgument          // the selector is not below the particle count

  /** A name with its selector cut out, and the selector text if there was one. */
  datatype Split = Split(path: String, selector: Option<String>)

  /** A matched path, with the particle it selects. */
  datatype Watched = Watched(path: String, particle: Option<int>)

  /** `String.indexOf` for a single character: the first position of `c`, or -1. */
  function IndexOf(s: String, c: char): (r: int)
    ensures -1 <= r < |s|
    ensures r == -1 <==> c !in s
    ensures r >= 0 ==> s[r] == c && c !in s[..r]
  {
    if s == [] then -1
    else if s[0] == c then 0
    else
      var r := IndexOf(s[1..], c);
      assert s[1..][..(if r < 0 then 0 else r)] == s[1..(if r < 0 then 1 else r + 1)];
      if r == -1 then -1 else r + 1
  }

  /**
   * Cuts the text from the first `[` to the first `]` out of `name`. Taking the selector
   * between them throws when the first `]` does not follow the first `[`.
   */
  function SplitName(name: String): Result<Split, WatchError> {
    var open := IndexOf(name, '[');
    if open == -1 then Ok(Split(name, None))
    else
      var close := IndexOf(name, ']');
      if close < open then Err(StringIndexOutOfBounds)
      else Ok(Split(name[..open] + name[close + 1..], Some(name[open + 1..close])))
  }

  lemma SplitNameWithoutSelector(name: String)
    requires '[' !in name
    ensures SplitName(name) == Ok(Split(name, None))
  {
  }

  lemma SplitNameFails(name: String)
    ensures SplitName(name).Err? <==> '[' in name && IndexOf(name, ']') < IndexOf(name, '[')
  {
  }

  /** A name built from a bracket-free head, a selector without `]` and any tail splits back into its parts. */
  lemma SplitNameRoundTrip(pre: String, sel: String, post: String)
    requires '[' !in pre && ']' !in pre && ']' !in sel
    ensures SplitName(pre + ['['] + sel + [']'] + post) == Ok(Split(pre + post, Some(sel)))
  {
    var name := pre + ['['] + sel + [']'] + post;
    var open, close := |pre|, |pre| + 1 + |sel|;
    assert name[..open] == pre;
    assert name[open] == '[';
    IndexOfIs(name, '[', open);
    assert name[..close] == pre + ['['] + sel;
    assert name[close] == ']';
    IndexOfIs(name, ']', close);
    assert name[close + 1..] == post;
    assert name[open + 1..close] == sel;
  }

  /** Conversely, every selector that splits off comes from such a name. */
  lemma SplitNameParts(name: String, path: String, sel: String)
    requires SplitName(name) == Ok(Split(path, Some(sel)))
    ensures exists pre, post ::
      (name == pre + ['['] + sel + [']'] + post && path == pre + post && '[' !in pre && ']' !in pre && ']' !in sel)
  {
    var open, close := IndexOf(name, '['), IndexOf(name, ']');
    assert open != -1 && open <= close;
    assert sel == name[open + 1..close] && path == name[..open] + name[close + 1..];
    NameParts(name, open, close);
  }

  /** A name cut at its first `[` and its first `]`, in that order, is the concatenation of its five parts. */
  lemma NameParts(name: String, open: int, close: int)
    requires 0 <= open <= close < |name| && name[open] == '[' && name[close] == ']'
    requires '[' !in name[..open] && ']' !in name[..close]
    ensures var pre, sel, post := name[..open], name[open + 1..close], name[close + 1..];
      name == pre + ['['] + sel + [']'] + post && '[' !in pre && ']' !in pre && ']' !in sel
  {
    assert name == name[..open] + [name[open]] + name[open + 1..close] + [name[close]] + name[close + 1..];
    assert name[open + 1..close] == name[..close][open + 1..];
    assert name[..open] == name[..close][..open];
  }

  lemma IndexOfIs(s: String, c: char, k: int)
    requires 0 <= k < |s| && s[k] == c && c !in s[..k]
    ensures IndexOf(s, c) == k
  {
  }

  predicate IsDigit(c: char) {
    '0' <= c <= '9'
  }

  function DigitValue(c: char): int
    requires IsDigit(c)
  {
    c as int - '0' as int
  }

  /** The number the decimal digits `ds` spell, most significant first. */
  function DigitsValue(ds: String): (n: nat)
    requires forall i :: 0 <= i < |ds| ==> IsDigit(ds[i])
  {
    if ds == [] then 0 else DigitsValue(ds[..|ds| - 1]) * 10 + DigitValue(ds[|ds| - 1])
  }

  /**
   * `Integer.parseInt` in radix 10: an optional leading `-` or `+`, then at least one
   * digit, and a value in the int range.
   */
  function ParseInt(s: String): (r: Result<int, WatchError>)
    ensures r.Ok? ==> IsInt(r.value)
  {
    if s == [] then Err(NumberFormat)
    else
      var negative := s[0] == '-';
      var digits := if s[0] == '-' || s[0] == '+' then s[1..] else s;
      if digits == [] || exists i :: 0 <= i < |digits| && !IsDigit(digits[i]) then Err(NumberFormat)
      else
        var magnitude: int := DigitsValue(digits);
        var v := if negative then -magnitude else magnitude;
        if IsInt(v) then Ok(v) else Err(NumberFormat)
  }

  /** The decimal digits of `n`, without leading zeros. */
  function Digits(n: nat): (ds: String)
    ensures |ds| > 0 && forall i :: 0 <= i < |ds| ==> IsDigit(ds[i])
  {
    var last := ['0' + ((n % 10) as char)];
    if n < 10 then last else Digits(n / 10) + last
  }

  /** `Integer.toString`, the inverse `ParseInt` is checked against. */
  function Decimal(x: int): String {
    if x < 0 then ['-'] + Digits(-x) else Digits(x)
  }

  lemma {:induction false} DigitsValueOfDigits(n: nat)
    ensures DigitsValue(Digits(n)) == n
  {
    if n >= 10 {
      DigitsValueOfDigits(n / 10);
      var ds := Digits(n);
      assert ds[..|ds| - 1] == Digits(n / 10);
    }
  }

  /** Every int prints to a text that parses back to it. */
  lemma ParseDecimal(x: int)
    requires IsInt(x)
    ensures ParseInt(Decimal(x)) == Ok(x)
  {
    if x < 0 {
      DigitsValueOfDigits(-x);
      assert Decimal(x)[1..] == Digits(-x);
    } else {
      DigitsValueOfDigits(x);
    }
  }

  /**
   * One watchable path against one split name: no match is no watch; a match without a
   * selector is watched as is; a selector is parsed and must be below the particle count.
   */
  function Check(path: String, sp: Split, particleCount: int): Result<Option<Watched>, WatchError> {
    if path != sp.path then Ok(None)
    else if sp.selector.None? then Ok(Some(Watched(path, None)))
    else
      var id := ParseInt(sp.selector.value);
      if id.Err? then Err(id.error)
      else if !(id.value < particleCount) then Err(IllegalArgument)
      else Ok(Some(Watched(path, Some(id.value))))
  }

  /** The bounds check rejects a matched selector exactly when it parses to a value not below the count. */
  lemma CheckRejects(path: String, sp: Split, particleCount: int)
    ensures Check(path, sp, particleCount) == Err(IllegalArgument) <==>
      (path == sp.path && sp.selector.Some? && ParseInt(sp.selector.value).Ok?
       && ParseInt(sp.selector.value).value >= particleCount)
  {
  }

  /** What an accepted check watches: the path itself, and the parsed selector if there was one. */
  lemma CheckAccepts(path: String, sp: Split, particleCount: int)
    requires Check(path, sp, particleCount).Ok?
    ensures Check(path, sp, particleCount).value.Some? <==> path == sp.path
    ensures Check(path, sp, particleCount).value.Some? ==>
      var w := Check(path, sp, particleCount).value.value;
      && w.path == path
      && (w.particle.Some? <==> sp.selector.Some?)
      && (w.particle.Some? ==> Ok(w.particle.value) == ParseInt(sp.selector.value) && w.particle.value < particleCount)
  {
  }

  /** The intended check: a selector names a particle, so it must lie in `0 .. particleCount - 1`. */
  function CheckInRange(path: String, sp: Split, particleCount: int): (r: Result<Option<Watched>, WatchError>)
    ensures r == Err(IllegalArgument) <==>
      (path == sp.path && sp.selector.Some? && ParseInt(sp.selector.value).Ok?
       && !(0 <= ParseInt(sp.selector.value).value < particleCount))
    ensures r.Ok? ==> (r.value.Some? <==> path == sp.path)
    ensures r.Ok? && r.value.Some? ==>
      var w := r.value.value;
      && w.path == path
      && (w.particle.Some? <==> sp.selector.Some?)
      && (w.particle.Some? ==> 0 <= w.particle.value < particleCount && Ok(w.particle.value) == ParseInt(sp.selector.value))
  {
    if path != sp.path then Ok(None)
    else if sp.selector.None? then Ok(Some(Watched(path, None)))
    else
      var id := ParseInt(sp.selector.value);
      if id.Err? then Err(id.error)
      else if !(0 <= id.value < particleCount) then Err(IllegalArgument)
      else Ok(Some(Watched(path, Some(id.value))))
  }

  /** The two checks differ only on selectors that parse to a negative number. */
  lemma CheckInRangeAgrees(path: String, sp: Split, particleCount: int)
    requires !(sp.selector.Some? && ParseInt(sp.selector.value).Ok? && ParseInt(sp.selector.value).value < 0)
    ensures CheckInRange(path, sp, particleCount) == Check(path, sp, particleCount)
  {
  }

  /** `acc` put in front of the watches of `r`, unless `r` failed. */
  function Prepend(acc: seq<Watched>, r: Result<seq<Watched>, WatchError>): Result<seq<Watched>, WatchError> {
    if r.Err? then r else Ok(acc + r.value)
  }

  lemma PrependNothing(r: Result<seq<Watched>, WatchError>)
    ensures Prepend([], r) == r
  {
    if r.Ok? {
      assert [] + r.value == r.value;
    }
  }

  lemma PrependPrepend(a: seq<Watched>, b: seq<Watched>, r: Result<seq<Watched>, WatchError>)
    ensures Prepend(a, Prepend(b, r)) == Prepend(a + b, r)
  {
    if r.Ok? {
      assert a + (b + r.value) == a + b + r.value;
    }
  }

  /**
   * The watches one split name yields over the paths of one variable, in path order; the first
   * failure aborts. The selector is checked with the corrected bound `CheckInRange`.
   */
  function MatchPaths(paths: seq<String>, sp: Split, particleCount: int): Result<seq<Watched>, WatchError> {
    if paths == [] then Ok([])
    else
      var c := CheckInRange(paths[0], sp, particleCount);
      if c.Err? then Err(c.error)
      else Prepend(if c.value.Some? then [c.value.value] else [], MatchPaths(paths[1..], sp, particleCount))
  }

  /** The watches every name of the list yields over the paths of one variable. */
  function MatchNames(paths: seq<String>, names: seq<String>, particleCount: int): Result<seq<Watched>, WatchError> {
    if names == [] then Ok([])
    else
      var sp := SplitName(names[0]);
      if sp.Err? then Err(sp.error)
      else
        var m := MatchPaths(paths, sp.value, particleCount);
        if m.Err? then m else Prepend(m.value, MatchNames(paths, names[1..], particleCount))
  }

  /** The watches of the whole list, variable by variable. */
  function MatchVariables(varPaths: seq<seq<String>>, names: seq<String>, particleCount: int): Result<seq<Watched>, WatchError> {
    if varPaths == [] then Ok([])
    else
      var m := MatchNames(varPaths[0], names, particleCount);
      if m.Err? then m else Prepend(m.value, MatchVariables(varPaths[1..], names, particleCount))
  }

  /** Every watch the resolution yields is of a path the variable offers, and its particle is in range. */
  lemma {:induction false} MatchPathsSound(paths: seq<String>, sp: Split, particleCount: int)
    requires MatchPaths(paths, sp, particleCount).Ok?
    ensures forall i :: 0 <= i < |MatchPaths(paths, sp, particleCount).value| ==>
      var w := MatchPaths(paths, sp, particleCount).value[i];
      w.path in paths && w.path == sp.path && (w.particle.Some? ==> 0 <= w.particle.value < particleCount)
  {
    if paths != [] {
      MatchPathsSound(paths[1..], sp, particleCount);
    }
  }

  /** No watch is produced for a variable none of whose paths equals the name without its selector. */
  lemma {:induction false} MatchPathsNone(paths: seq<String>, sp: Split, particleCount: int)
    requires sp.path !in paths
    ensures MatchPaths(paths, sp, particleCount) == Ok([])
  {
    if paths != [] {
      assert sp.path !in paths[1..];
      MatchPathsNone(paths[1..], sp, particleCount);
      var none: seq<Watched> := [];
      assert none + none == none;
    }
  }

  method ResolvePaths(paths: seq<String>, sp: Split, particleCount: int) returns (r: Result<seq<Watched>, WatchError>)
    ensures r == MatchPaths(paths, sp, particleCount)
  {
    var acc: seq<Watched> := [];
    PrependNothing(MatchPaths(paths, sp, particleCount));
    var i := 0;
    assert paths[i..] == paths;
    while i < |paths|
      invariant 0 <= i <= |paths|
      invariant MatchPaths(paths, sp, particleCount) == Prepend(acc, MatchPaths(paths[i..], sp, particleCount))
    {
      assert paths[i..][0] == paths[i] && paths[i..][1..] == paths[i + 1..];
      var c := CheckInRange(paths[i], sp, particleCount);
      if c.Err? {
        return Err(c.error);
      }
      var found := if c.value.Some? then [c.value.value] else [];
      PrependPrepend(acc, found, MatchPaths(paths[i + 1..], sp, particleCount));
      acc := acc + found;
      i := i + 1;
    }
    assert paths[i..] == [] && acc + [] == acc;
    r := Ok(acc);
  }

  method ResolveNames(paths: seq<String>, names: seq<String>, particleCount: int) returns (r: Result<seq<Watched>, WatchError>)
    ensures r == MatchNames(paths, names, particleCount)
  {
    var acc: seq<Watched> := [];
    PrependNothing(MatchNames(paths, names, particleCount));
    var i := 0;
    assert names[i..] == names;
    while i < |names|
      invariant 0 <= i <= |names|
      invariant MatchNames(paths, names, particleCount) == Prepend(acc, MatchNames(paths, names[i..], particleCount))
    {
      assert names[i..][0] == names[i] && names[i..][1..] == names[i + 1..];
      var sp := SplitName(names[i]);
      if sp.Err? {
        return Err(sp.error);
      }
      var m := ResolvePaths(paths, sp.value, particleCount);
      if m.Err? {
        return m;
      }
      PrependPrepend(acc, m.value, MatchNames(paths, names[i + 1..], particleCount));
      acc := acc + m.value;
      i := i + 1;
    }
    assert names[i..] == [] && acc + [] == acc;
    r := Ok(acc);
  }

  /** The nested loops over watchable variables, watch-list names and each variable's paths. */
  method ResolveWatchList(varPaths: seq<seq<String>>, names: seq<String>, particleCount: int) returns (r: Result<seq<Watched>, WatchError>)
    ensures r == MatchVariables(varPaths, names, particleCount)
  {
    var acc: seq<Watched> := [];
    PrependNothing(MatchVariables(varPaths, names, particleCount));
    var v := 0;
    assert varPaths[v..] == varPaths;
    while v < |varPaths|
      invariant 0 <= v <= |varPaths|
      invariant MatchVariables(varPaths, names, particleCount) == Prepend(acc, MatchVariables(varPaths[v..], names, particleCount))
    {
      assert varPaths[v..][0] == varPaths[v] && varPaths[v..][1..] == varPaths[v + 1..];
      var m := ResolveNames(varPaths[v], names, particleCount);
      if m.Err? {
        return m;
      }
      PrependPrepend(acc, m.value, MatchVariables(varPaths[v + 1..], names, particleCount));
      acc := acc + m.value;
      v := v + 1;
    }
    assert varPaths[v..] == [] && acc + [] == acc;
    r := Ok(acc);
  }

  /** A name with the selector `-1` splits like any other. */
  lemma NegativeSelectorSplits()
    ensures SplitName("particle" + "[" + "-1" + "]" + ".x") == Ok(Split("particle" + ".x", Some("-1")))
  {
    SplitNameRoundTrip("particle", "-1", ".x");
  }

  /** The bounds check as written lets a negative selector through. */
  lemma NegativeSelectorAccepted()
    ensures Check("particle.x", Split("particle.x", Some("-1")), 1) == Ok(Some(Watched("particle.x", Some(-1))))
  {
    ParseMinusOne();
  }

  lemma ParseMinusOne()
    ensures ParseInt("-1") == Ok(-1)
  {
    assert "-1"[1..] == "1";
    assert DigitsValue("1") == 1 by {
      assert "1"[..0] == [];
    }
  }

  /** The position slot the watch leaf reads for coordinate `axis` (0, 1, 2 for x, y, z) of particle `id`, as written. */
  function LeafSlotAsWritten(id: int, axis: int): int {
    id + axis
  }

  /** With particles stored at stride 4, the leaf for particle 1's x reads particle 0's y. */
  lemma LeafSlotAsWrittenMisreads(vs: seq<Vector4>)
    requires |vs| >= 2
    ensures Layout(vs)[LeafSlotAsWritten(1, 0)] == vs[0].y
    ensures LeafSlotAsWritten(1, 0) != 4 * 1 + 0
  {
    LayoutAt(vs, 0, 1);
  }

  /** The intended slot: coordinate `axis` of particle `id` in the stride-4 layout. */
  function LeafSlot(id: int, axis: int): int {
    4 * id + axis
  }

  lemma LeafSlotReadsComponent(vs: seq<Vector4>, id: int, axis: int)
    requires 0 <= id < |vs| && 0 <= axis < 3
    ensures 0 <= LeafSlot(id, axis) < |Layout(vs)|
    ensures Layout(vs)[LeafSlot(id, axis)] == Component(vs[id], axis)
  {
    LayoutAt(vs, id, axis);
  }
}
