/** The pure decisions the report service makes before it calls the
    renderer: which theme to pass and how subjects are named. */
module Naming {
  import opened Wrappers
  import opened Schema

  /** `t` occurs in `s` as a contiguous piece. */
  predicate Contains(s: string, t: string)
  {
    exists i | 0 <= i <= |s| :: OccursAt(s, t, i)
  }

  /** `t` occurs in `s` starting at index `i`. */
  predicate OccursAt(s: string, t: string, i: int)
  {
    0 <= i && i + |t| <= |s| && s[i..i + |t|] == t
  }

  /** Containment is transitive: a piece of a piece is a piece. */
  lemma ContainsTransitive(a: string, b: string, c: string)
    requires Contains(a, b) && Contains(b, c)
    ensures Contains(a, c)
  {
    var i :| OccursAt(a, b, i);
    var j :| OccursAt(b, c, j);
    assert OccursAt(a, b, i) && OccursAt(b, c, j);
    forall k | 0 <= k < |c|
      ensures a[i + j + k] == c[k]
    {
      assert c[k] == b[j + k] == a[i + j + k];
    }
    assert a[i + j..i + j + |c|] == c;
    assert OccursAt(a, c, i + j);
  }

  /** Every string contains itself. */
  lemma ContainsSelf(s: string)
    ensures Contains(s, s)
  {
    assert s[0..|s|] == s;
    assert OccursAt(s, s, 0);
  }

  /** Every string contains its own suffixes. */
  lemma ContainsSuffix(p: string, s: string)
    ensures Contains(p + s, s)
  {
    assert (p + s)[|p|..|p| + |s|] == s;
    assert OccursAt(p + s, s, |p|);
  }

  /** The six characters `uuid.uuid4().hex[:6]` yields (their alphabet,
      lower-case hex digits, plays no part in what is proved). */
  type Suffix = s: string | |s| == 6 witness "000000"

  /** The theme handed to the renderer: `None` (use the renderer's default)
      exactly for the value "Classic", otherwise the value itself. */
  function SelectedTheme(value: string): (r: Option<string>)
    ensures r.None? <==> value == "Classic"
    ensures r.Some? ==> r.value == value
  {
    if value == "Classic" then None else Some(value)
  }

  /** The renderer is never told to use its default theme for a schema
      theme: both values pass through verbatim. */
  lemma SchemaThemeAlwaysOverrides(t: Theme)
    ensures SelectedTheme(t.Value()) == Some(t.Value())
  {
  }

  /** What each report puts in front of `{name}_{suffix}`. */
  function ModePrefix(mode: ChartType): string
  {
    match mode
    case Natal => ""
    case Transit => "Transit_"
    case Synastry => "Syn_"
  }

  /** The first subject's internal name: `{name}_{suffix}` for natal,
      `Transit_{name}_{suffix}`, `Syn_{name}_{suffix}`. It carries the
      person's name. */
  function InternalName(mode: ChartType, name: string, sfx: Suffix): (r: string)
    ensures Contains(r, name)
  {
    var r := ModePrefix(mode) + name + "_" + sfx;
    assert r[|ModePrefix(mode)|..|ModePrefix(mode)| + |name|] == name;
    assert OccursAt(r, name, |ModePrefix(mode)|);
    r
  }

  /** What marks the second subject's name: `T_` for the transit moment,
      `P2_` for the synastry partner. */
  function PartnerPrefix(mode: ChartType): string
    requires mode != Natal
  {
    if mode == Transit then "T_" else "P2_"
  }

  /** The second subject's name, `T_{internal}` or `P2_{internal}`: it
      contains the first subject's internal name without being equal to it,
      and it is never a hidden file name. */
  function PartnerName(mode: ChartType, internal: string): (r: string)
    requires mode != Natal
    ensures Contains(r, internal) && r != internal
    ensures r[0] != '.'
  {
    ContainsSuffix(PartnerPrefix(mode), internal);
    PartnerPrefix(mode) + internal
  }

  /** An internal name starts with '.' (so a file name that begins with it
      is hidden) exactly for a natal request whose name starts with '.'. */
  lemma InternalNameHidden(mode: ChartType, name: string, sfx: Suffix)
    ensures InternalName(mode, name, sfx)[0] == '.' <==> mode == Natal && name != [] && name[0] == '.'
  {
    var r := InternalName(mode, name, sfx);
    match mode
    case Natal =>
      if name == [] { assert r == "_" + sfx; } else { assert r[0] == name[0]; }
    case Transit => assert r[0] == 'T';
    case Synastry => assert r[0] == 'S';
  }

  /** For one person and one mode, different suffixes give different
      internal names: the suffix is what keeps two requests apart. */
  lemma SuffixSeparatesNames(mode: ChartType, name: string, s1: Suffix, s2: Suffix)
    requires s1 != s2
    ensures InternalName(mode, name, s1) != InternalName(mode, name, s2)
  {
    var k := |ModePrefix(mode)| + |name| + 1;
    assert InternalName(mode, name, s1)[k..] == s1;
    assert InternalName(mode, name, s2)[k..] == s2;
  }

  /** Within one mode, the internal name determines both the person's name
      and the suffix. */
  lemma InternalNameInjective(mode: ChartType, n1: string, s1: Suffix, n2: string, s2: Suffix)
    requires InternalName(mode, n1, s1) == InternalName(mode, n2, s2)
    ensures n1 == n2 && s1 == s2
  {
    var p, r := ModePrefix(mode), InternalName(mode, n1, s1);
    assert |n1| == |n2|;
    assert n1 == r[|p|..|p| + |n1|] && n2 == r[|p|..|p| + |n2|];
    assert s1 == r[|p| + |n1| + 1..] && s2 == r[|p| + |n2| + 1..];
  }
}
