/** Path names: skipelem, and the components it takes off one by one. */
module Path {
  import opened Bytes
  import opened DirState

  const SLASH: Byte := 47

  /** A C string's contents. */
  predicate IsPath(p: seq<Byte>) {
    forall i :: 0 <= i < |p| ==> p[i] != 0
  }

  /** The longest run of slashes, or of other characters, from i on. */
  function Run(p: seq<Byte>, i: nat, slashes: bool): (k: nat)
    requires i <= |p|
    ensures i <= k <= |p| && (k < |p| ==> (p[k] == SLASH) != slashes)
    ensures forall j :: i <= j < k ==> (p[j] == SLASH) == slashes
    decreases |p| - i
  {
    if i == |p| || (p[i] == SLASH) != slashes then i else Run(p, i + 1, slashes)
  }

  /** The nonempty slash-separated components of a path. */
  function Components(p: seq<Byte>): (cs: seq<seq<Byte>>)
    decreases |p|
  {
    if p == [] then []
    else if p[0] == SLASH then Components(p[1..])
    else
      var k := Run(p, 0, false);
      [p[..k]] + Components(p[k..])
  }

  predicate NoSlash(s: seq<Byte>) {
    forall i :: 0 <= i < |s| ==> s[i] != SLASH
  }

  predicate AllSlashes(s: seq<Byte>) {
    forall i :: 0 <= i < |s| ==> s[i] == SLASH
  }

  // ----- what the components are, said the other way round

  /** Components written out with slashes before each of them. */
  function Joined(seps: seq<seq<Byte>>, cs: seq<seq<Byte>>): seq<Byte>
    requires |seps| == |cs|
  {
    if cs == [] then [] else seps[0] + cs[0] + Joined(seps[1..], cs[1..])
  }

  lemma {:induction false} LeadingSlashes(s: seq<Byte>, p: seq<Byte>)
    requires AllSlashes(s)
    ensures Components(s + p) == Components(p)
  {
    if s == [] {
      assert s + p == p;
    } else {
      LeadingSlashes(s[1..], p);
      assert (s + p)[1..] == s[1..] + p;
    }
  }

  lemma FirstComponent(c: seq<Byte>, p: seq<Byte>)
    requires c != [] && NoSlash(c) && (p == [] || p[0] == SLASH)
    ensures Components(c + p) == [c] + Components(p)
  {
    var k := Run(c + p, 0, false);
    forall i | 0 <= i < |c| ensures (c + p)[i] == c[i] {
    }
    if p != [] {
      assert (c + p)[|c|] == p[0];
    }
    assert k == |c|;
    assert (c + p)[..k] == c && (c + p)[k..] == p;
  }

  /** Any path is slashes, a component, one or more slashes, a component, and so on: and those are
      its components. */
  lemma {:induction false} ComponentsOfJoined(seps: seq<seq<Byte>>, cs: seq<seq<Byte>>, tail: seq<Byte>)
    requires |seps| == |cs| && AllSlashes(tail)
    requires forall i :: 0 <= i < |cs| ==> cs[i] != [] && NoSlash(cs[i]) && AllSlashes(seps[i])
    requires forall i :: 0 < i < |cs| ==> seps[i] != []
    ensures Components(Joined(seps, cs) + tail) == cs
  {
    if cs == [] {
      LeadingSlashes(tail, []);
      assert Joined(seps, cs) + tail == tail + [];
    } else {
      var rest := Joined(seps[1..], cs[1..]) + tail;
      ComponentsOfJoined(seps[1..], cs[1..], tail);
      assert Joined(seps, cs) + tail == seps[0] + (cs[0] + rest);
      LeadingSlashes(seps[0], cs[0] + rest);
      StartsWithSlash(seps[1..], cs[1..], tail);
      FirstComponent(cs[0], rest);
      assert cs == [cs[0]] + cs[1..];
    }
  }

  lemma StartsWithSlash(seps: seq<seq<Byte>>, cs: seq<seq<Byte>>, tail: seq<Byte>)
    requires |seps| == |cs| && AllSlashes(tail) && (cs != [] ==> seps[0] != [] && AllSlashes(seps[0]))
    ensures var p := Joined(seps, cs) + tail; p == [] || p[0] == SLASH
  {
    if cs != [] {
      assert (Joined(seps, cs) + tail)[0] == seps[0][0];
    }
  }

  // ----- skipelem

  /** Components after a run of slashes, and after the component that follows. */
  lemma AfterSlashes(p: seq<Byte>, i: nat, k: nat)
    requires i <= |p| && k == Run(p, i, true)
    ensures Components(p[i..]) == Components(p[k..])
  {
    hide Components, Run;
    assert p[i..] == p[i..k] + p[k..];
    assert AllSlashes(p[i..k]);
    LeadingSlashes(p[i..k], p[k..]);
  }

  lemma AfterElement(p: seq<Byte>, i: nat, j: nat)
    requires i < |p| && p[i] != SLASH && j == Run(p, i, false)
    ensures i < j && NoSlash(p[i..j]) && Components(p[i..]) == [p[i..j]] + Components(p[j..])
  {
    hide Components, Run;
    assert p[i..] == p[i..j] + p[j..];
    FirstComponent(p[i..j], p[j..]);
  }

  /** The scans of skipelem: past a run of slashes, or to the end of a run of other characters. */
  method Scan(p: seq<Byte>, i: nat, slashes: bool) returns (k: nat)
    requires i <= |p|
    ensures k == Run(p, i, slashes)
  {
    k := i;
    while k < |p| && (p[k] == SLASH) == slashes
      invariant i <= k <= |p| && Run(p, i, slashes) == Run(p, k, slashes)
    {
      k := k + 1;
    }
  }

  /** The next element, cut to DIRSIZ, and the rest of the path without leading slashes. */
  method Skipelem(path: seq<Byte>) returns (ok: bool, name: seq<Byte>, rest: seq<Byte>)
    requires IsPath(path)
    ensures ok <==> Components(path) != []
    ensures ok ==> name == Short(Components(path)[0]) && Components(path)[0] != [] && NoSlash(Components(path)[0])
    ensures ok ==> Components(rest) == Components(path)[1..] && IsPath(rest) && |rest| < |path|
    ensures ok ==> (rest == [] <==> |Components(path)| == 1)
  {
    hide Components, Run;
    NoComponents();
    var i := Scan(path, 0, true);
    assert path[0..] == path;
    AfterSlashes(path, 0, i);
    if i == |path| {
      assert path[i..] == [];
      return false, [], [];
    }
    var j := Scan(path, i, false);
    AfterElement(path, i, j);
    name := if j - i >= DIRSIZ then path[i..i + DIRSIZ] else path[i..j];
    assert name == Short(path[i..j]);
    var k := Scan(path, j, true);
    AfterSlashes(path, j, k);
    rest := path[k..];
    if k < |path| {
      NotEmpty(rest);
    }
    return true, name, rest;
  }

  lemma NoComponents()
    ensures Components([]) == []
  {
  }

  function Short(c: seq<Byte>): seq<Byte> {
    if |c| >= DIRSIZ then c[..DIRSIZ] else c
  }

  /** A path that starts with another character has a component. */
  lemma NotEmpty(p: seq<Byte>)
    requires p != [] && p[0] != SLASH
    ensures Components(p) != []
  {
  }

  /** Cutting a component makes no difference to the comparison of names. */
  lemma ShortName(c: seq<Byte>)
    ensures Cut(Short(c)) == Cut(c)
  {
    hide Cut;
    CutEqual(Short(c), c);
  }
}
