/** The lease resource of a worktree: three names joined by colons, and exactly when that names one worktree only. */
module WorktreeKeys {
  import opened Events

  const COLON: Byte := 58

  // "worktree:"
  const WORKTREE: Text := [119, 111, 114, 107, 116, 114, 101, 101, 58]

  datatype Worktree = Worktree(project: Text, repository: Text, branch: Text) {
    // A claim is refused for a blank name.
    predicate Claimable() {
      !Blank(project) && !Blank(repository) && !Blank(branch)
    }

    // The three names joined by colons.
    function Joined(): Text {
      project + [COLON] + repository + [COLON] + branch
    }

    // Some colon inside a name could as well be one of the two that join: it leaves text on the side the other worktree needs.
    predicate Ambiguous() {
      || (exists k :: 0 <= k < |project| && ColonAt(project, k) && !Blank(project[..k]))
      || (exists k :: 0 <= k < |branch| && ColonAt(branch, k) && !Blank(branch[k + 1..]))
      || (exists k :: 0 <= k < |repository| && ColonAt(repository, k) && (!Blank(repository[..k]) || !Blank(repository[k + 1..])))
    }
  }

  predicate ColonAt(t: Text, k: int)
    requires 0 <= k < |t|
  {
    t[k] == COLON
  }

  function Key(w: Worktree): Text {
    WORKTREE + w.Joined()
  }

  lemma SameKeySameNames(w: Worktree, v: Worktree)
    ensures Key(w) == Key(v) <==> w.Joined() == v.Joined()
  {
    assert Key(w)[|WORKTREE|..] == w.Joined() && Key(v)[|WORKTREE|..] == v.Joined();
  }

  lemma Length(w: Worktree)
    ensures |w.Joined()| == |w.project| + 1 + |w.repository| + 1 + |w.branch|
  {
  }

  // Which name position k of the joined names belongs to.
  lemma LetterOf(w: Worktree, k: nat)
    requires k < |w.Joined()|
    ensures var p, q := |w.project|, |w.project| + 1 + |w.repository|;
      w.Joined()[k] == (if k < p then w.project[k] else if k == p || k == q then COLON
                        else if k < q then w.repository[k - p - 1] else w.branch[k - q - 1])
  {
  }

  lemma TextAt(t: Text) returns (k: nat)
    requires !Blank(t)
    ensures k < |t| && !IsSpace(t[k])
  {
    k :| 0 <= k < |t| && !IsSpace(t[k]);
  }

  lemma HasText(t: Text, k: nat)
    requires k < |t| && !IsSpace(t[k])
    ensures !Blank(t)
  {
  }

  // The second worktree's first joint inside the first one's project.
  lemma ProjectSplits(w: Worktree, v: Worktree)
    requires v.Claimable() && v.Joined() == w.Joined() && |v.project| < |w.project|
    ensures w.Ambiguous()
  {
    hide Blank, Worktree.Joined;
    var i := |v.project|;
    var k := TextAt(v.project);
    Length(v);
    Length(w);
    LetterOf(v, k);
    LetterOf(v, i);
    LetterOf(w, k);
    LetterOf(w, i);
    HasText(w.project[..i], k);
    assert ColonAt(w.project, i);
  }

  // Its second joint inside the first one's branch.
  lemma BranchSplits(w: Worktree, v: Worktree)
    requires v.Claimable() && v.Joined() == w.Joined() && |v.branch| < |w.branch|
    ensures w.Ambiguous()
  {
    hide Blank, Worktree.Joined;
    var n := |w.Joined()|;
    var k := TextAt(v.branch);
    Length(v);
    Length(w);
    LetterOf(v, n - |v.branch| + k);
    LetterOf(v, n - |v.branch| - 1);
    LetterOf(w, n - |v.branch| + k);
    LetterOf(w, n - |v.branch| - 1);
    var at := |w.branch| - |v.branch| - 1;
    assert w.branch[at + 1..][k] == w.branch[at + 1 + k];
    HasText(w.branch[at + 1..], k);
    assert ColonAt(w.branch, at);
  }

  // Otherwise a joint inside the first one's repository.
  lemma RepositorySplits(w: Worktree, v: Worktree)
    requires v.Claimable() && v.Joined() == w.Joined() && |v.project| >= |w.project| && |v.branch| >= |w.branch|
    requires v != w
    ensures w.Ambiguous()
  {
    hide Blank, Worktree.Joined;
    var n, p, i := |w.Joined()|, |w.project|, |v.project|;
    var k := TextAt(v.repository);
    Length(v);
    Length(w);
    LetterOf(v, i + 1 + k);
    LetterOf(w, i + 1 + k);
    if i > p {
      var at := i - p - 1;
      LetterOf(v, i);
      LetterOf(w, i);
      assert w.repository[at + 1..][k] == w.repository[at + 1 + k];
      HasText(w.repository[at + 1..], k);
      assert ColonAt(w.repository, at);
    } else if |v.branch| > |w.branch| {
      var at := |v.repository|;
      LetterOf(v, i + 1 + at);
      LetterOf(w, i + 1 + at);
      HasText(w.repository[..at], k);
      assert ColonAt(w.repository, at);
    } else {
      SameJoints(w, v);
    }
  }

  lemma SameJoints(w: Worktree, v: Worktree)
    requires v.Joined() == w.Joined() && |v.project| == |w.project| && |v.branch| == |w.branch|
    ensures v == w
  {
    var s := w.Joined();
    assert w.project == s[..|w.project|] && w.branch == s[|s| - |w.branch|..];
    assert w.repository == s[|w.project| + 1..|s| - |w.branch| - 1];
  }

  lemma ColonIsText(a: Text, b: Text)
    ensures !Blank(a + [COLON] + b)
  {
    assert (a + [COLON] + b)[|a|] == COLON;
  }

  // A colon moves between the joints without changing what is joined.
  lemma MoveJoint(a: Text, b: Text, c: Text, d: Text)
    ensures Worktree(a, b + [COLON] + c, d).Joined() == Worktree(a + [COLON] + b, c, d).Joined() == Worktree(a, b, c + [COLON] + d).Joined()
  {
    assert a + [COLON] + (b + [COLON] + c) == a + [COLON] + b + [COLON] + c;
    assert a + [COLON] + b + [COLON] + c + [COLON] + d == a + [COLON] + b + [COLON] + (c + [COLON] + d);
  }

  lemma Rejoined(t: Text, k: nat)
    requires k < |t| && ColonAt(t, k)
    ensures t == t[..k] + [COLON] + t[k + 1..]
  {
  }

  // Such a colon makes another worktree that can be claimed and has the same key, so the two exclude each other.
  lemma AmbiguousCollides(w: Worktree) returns (v: Worktree)
    requires w.Claimable() && w.Ambiguous()
    ensures v.Claimable() && v != w && v.Joined() == w.Joined()
  {
    hide Blank, Worktree.Joined;
    if k :| 0 <= k < |w.project| && ColonAt(w.project, k) && !Blank(w.project[..k]) {
      v := MovedLeft(w.project[..k], w.project[k + 1..], w.repository, w.branch);
      Rejoined(w.project, k);
    } else if k :| 0 <= k < |w.branch| && ColonAt(w.branch, k) && !Blank(w.branch[k + 1..]) {
      v := MovedRight(w.project, w.repository, w.branch[..k], w.branch[k + 1..]);
      Rejoined(w.branch, k);
    } else {
      var k :| 0 <= k < |w.repository| && ColonAt(w.repository, k) && (!Blank(w.repository[..k]) || !Blank(w.repository[k + 1..]));
      Rejoined(w.repository, k);
      v := SplitInside(w.project, w.repository[..k], w.repository[k + 1..], w.branch);
    }
  }

  lemma MovedLeft(a: Text, b: Text, c: Text, d: Text) returns (v: Worktree)
    requires !Blank(a) && !Blank(d)
    ensures v.Claimable() && v != Worktree(a + [COLON] + b, c, d) && v.Joined() == Worktree(a + [COLON] + b, c, d).Joined()
  {
    v := Worktree(a, b + [COLON] + c, d);
    ColonIsText(b, c);
    MoveJoint(a, b, c, d);
    assert |v.project| < |a + [COLON] + b|;
  }

  lemma MovedRight(a: Text, b: Text, c: Text, d: Text) returns (v: Worktree)
    requires !Blank(a) && !Blank(d)
    ensures v.Claimable() && v != Worktree(a, b, c + [COLON] + d) && v.Joined() == Worktree(a, b, c + [COLON] + d).Joined()
  {
    v := Worktree(a, b + [COLON] + c, d);
    ColonIsText(b, c);
    MoveJoint(a, b, c, d);
    assert |v.branch| < |c + [COLON] + d|;
  }

  lemma SplitInside(a: Text, b: Text, c: Text, d: Text) returns (v: Worktree)
    requires !Blank(a) && !Blank(d) && (!Blank(b) || !Blank(c))
    ensures v.Claimable() && v != Worktree(a, b + [COLON] + c, d) && v.Joined() == Worktree(a, b + [COLON] + c, d).Joined()
  {
    MoveJoint(a, b, c, d);
    ColonIsText(a, b);
    ColonIsText(c, d);
    v := if !Blank(b) then Worktree(a, b, c + [COLON] + d) else Worktree(a + [COLON] + b, c, d);
    assert |v.repository| < |b + [COLON] + c|;
  }

  // One lease resource per worktree holds exactly for the worktrees without such a colon, among all that can be claimed.
  lemma KeyIsExclusive(w: Worktree)
    requires w.Claimable()
    ensures (forall v: Worktree :: v.Claimable() && Key(v) == Key(w) ==> v == w) <==> !w.Ambiguous()
  {
    if w.Ambiguous() {
      var v := AmbiguousCollides(w);
      SameKeySameNames(w, v);
    }
    forall v: Worktree | v.Claimable() && Key(v) == Key(w) && v != w ensures w.Ambiguous() {
      SameKeySameNames(w, v);
      if |v.project| < |w.project| {
        ProjectSplits(w, v);
      } else if |v.branch| < |w.branch| {
        BranchSplits(w, v);
      } else {
        RepositorySplits(w, v);
      }
    }
  }
}
