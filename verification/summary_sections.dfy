/** The three-bullet sections of the older summary package's markdown
    (summary/markdown_formatter.py, `section_bullets`): which groups a section shows,
    and the loop that writes them, for any tie label. */
module SummarySections {
  import opened Grouping

  /** How many groups a three-bullet section shows: whole groups, up to and including
      the first one that brings the bullet count to `need` or more. */
  function BulletCut<T>(gs: seq<Group<T>>, need: int): (k: nat)
    requires need > 0
    ensures k <= |gs|
    ensures k < |gs| ==> Count(gs[..k]) >= need
    ensures k > 0 ==> Count(gs[..k - 1]) < need
    decreases |gs|
  {
    if |gs| == 0 then 0
    else if |gs[0].members| >= need then
      assert gs[..0] == [];
      1
    else
      var k := 1 + BulletCut(gs[1..], need - |gs[0].members|);
      CountPrefix(gs, k);
      if k > 1 then
        CountPrefix(gs, k - 1);
        k
      else
        assert gs[..0] == [];
        k
  }

  /** The members of a non-empty prefix are the first group's and those of the rest's prefix. */
  lemma CountPrefix<T>(gs: seq<Group<T>>, k: int)
    requires 0 < k <= |gs|
    ensures Count(gs[..k]) == |gs[0].members| + Count(gs[1..][..k - 1])
  {
    assert gs[..k][1..] == gs[1..][..k - 1];
  }

  /** The loop of `section_bullets` as written: `index` counts groups, `adjustment` starts
      at one and grows by each group's size less one, a tied scorer's rank is
      `index + adjustment`, and the loop stops once three or more bullets are held. The
      label a rank gets is `tieLabel`. */
  function SectionBulletsFrom<T>(gs: seq<Group<T>>, index: nat, adjustment: int, bullets: seq<string>,
                                 describe: (T, real) -> string, tieLabel: nat -> string): seq<string>
    requires index + adjustment >= 1
    decreases |gs|
  {
    if |gs| == 0 then bullets
    else
      var g := gs[0];
      var tag := if |g.members| > 1 then tieLabel(index + adjustment) else "";
      var held := bullets + MemberLines(g, describe, tag);
      if |held| >= 3 then held
      else SectionBulletsFrom(gs[1..], index + 1, adjustment + |g.members| - 1, held, describe, tieLabel)
  }

  /** The label a group's members carry when `earlier` bullets come before it. */
  function TieTag<T>(g: Group<T>, earlier: nat, tieLabel: nat -> string): string
  {
    if |g.members| > 1 then tieLabel(earlier + 1) else ""
  }
}
