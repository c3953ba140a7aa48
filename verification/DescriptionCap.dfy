// truncate_desc: one relation description, capped for display.

module DescriptionCap {

  import opened Common
  import opened Segments

  const ELLIPSIS: char := '…'

  // " ".join(text.split()), with spaces for all white space
  function Collapse(text: string): string
  {
    Join(NonEmpty(Split(text, ' ')), ' ')
  }

  // The last space, or -1.
  function LastSpace(s: string): (at: int)
    ensures -1 <= at < |s|
  {
    if s == [] then -1 else if s[|s| - 1] == ' ' then |s| - 1 else LastSpace(s[..|s| - 1])
  }

  // What is left of a text that is over the limit, before the ellipsis.
  function Kept(s: string, limit: nat): string
    requires 0 < limit < |s|
  {
    var cut := s[..limit - 1];
    var at := LastSpace(cut);
    var spaced := if at < 0 then cut else cut[..at];
    RStrip(if |spaced| >= limit / 2 then spaced else cut, ' ')
  }

  function Cap(text: string, limit: nat): string
    requires 0 < limit
  {
    var s := Collapse(text);
    if |s| <= limit then s else Kept(s, limit) + [ELLIPSIS]
  }

  // Words with one space between them.
  predicate Clean(s: string)
  {
    forall i :: 0 <= i < |s| && s[i] == ' ' ==> 0 < i < |s| - 1 && s[i - 1] != ' ' && s[i + 1] != ' '
  }

  lemma {:induction false} CleanHasNoEmpty(s: string)
    requires Clean(s) && s != []
    ensures NoEmpty(Split(s, ' '))
    decreases |s|
  {
    var n := |s| - 1;
    var front := s[..n];
    if n == 0 {
      assert front == [] && Split([], ' ') == [[]];
    } else if front[n - 1] == ' ' {
      assert Clean(front[..n - 1]) by { CleanFront(s, n - 1); }
      CleanHasNoEmpty(front[..n - 1]);
      assert Split(front, ' ') == Split(front[..n - 1], ' ') + [[]];
    } else {
      CleanFront(s, n);
      CleanHasNoEmpty(front);
    }
  }

  lemma CleanFront(s: string, n: nat)
    requires Clean(s) && n <= |s| && (n > 0 ==> s[n - 1] != ' ')
    ensures Clean(s[..n])
  {
  }

  lemma {:induction false} JoinIsClean(words: seq<string>)
    requires AllFree(words, ' ') && NoEmpty(words)
    ensures Clean(Join(words, ' '))
    ensures words != [] ==> Join(words, ' ') != []
    decreases |words|
  {
    if |words| > 1 {
      var n := |words| - 1;
      JoinIsClean(words[..n]);
    }
  }

  lemma CollapseIsClean(text: string)
    ensures Clean(Collapse(text))
  {
    hide Split, Join, NonEmpty, Free, Clean;
    SplitIsFree(text, ' ');
    NonEmptyKeeps(Split(text, ' '));
    NonEmptyFree(Split(text, ' '), ' ');
    JoinIsClean(NonEmpty(Split(text, ' ')));
  }

  lemma CleanIsCollapsed(s: string)
    requires Clean(s)
    ensures Collapse(s) == s
  {
    if s == [] {
      assert Split([], ' ') == [[]] && NonEmpty([[]]) == [];
    } else {
      CleanHasNoEmpty(s);
      NonEmptyKeeps(Split(s, ' '));
      JoinOfSplit(s, ' ');
    }
  }

  lemma {:induction false} LastSpaceIs(s: string)
    ensures LastSpace(s) >= 0 ==> s[LastSpace(s)] == ' '
    ensures forall i :: LastSpace(s) < i < |s| ==> s[i] != ' '
    decreases |s|
  {
    if s != [] {
      LastSpaceIs(s[..|s| - 1]);
    }
  }

  // Where the text is cut, and that the strip has nothing left to do.
  lemma WhereItIsCut(s: string, limit: nat)
    requires Clean(s) && 2 <= limit < |s|
    ensures var at := LastSpace(s[..limit - 1]);
      Kept(s, limit) == s[..if limit / 2 <= at then at else limit - 1]
    ensures Kept(s, limit) != [] && Kept(s, limit)[|Kept(s, limit)| - 1] != ' '
  {
    var cut := s[..limit - 1];
    var at := LastSpace(cut);
    LastSpaceIs(cut);
    var n := if limit / 2 <= at then at else limit - 1;
    if at >= 0 {
      assert s[at] == cut[at] == ' ';
    }
    assert s[n - 1] != ' ';
    assert cut[..if at < 0 then 0 else at] == s[..if at < 0 then 0 else at];
    hide LastSpace, Clean;
  }

  // No longer than the limit, and a prefix of the collapsed text when anything is cut.
  lemma CapIsBounded(text: string, limit: nat)
    requires 2 <= limit
    ensures |Cap(text, limit)| <= limit
    ensures |Collapse(text)| <= limit ==> Cap(text, limit) == Collapse(text)
    ensures |Collapse(text)| > limit ==> Kept(Collapse(text), limit) < Collapse(text)
  {
    hide Collapse, Kept, Clean, LastSpace;
    CollapseIsClean(text);
    if |Collapse(text)| > limit {
      WhereItIsCut(Collapse(text), limit);
    }
  }

  // Capping what is capped changes nothing.
  lemma CapIsIdempotent(text: string, limit: nat)
    requires 2 <= limit
    ensures Cap(Cap(text, limit), limit) == Cap(text, limit)
  {
    hide Collapse, Kept, LastSpace;
    var s := Collapse(text);
    var r := Cap(text, limit);
    CollapseIsClean(text);
    CapIsBounded(text, limit);
    if |s| > limit {
      WhereItIsCut(s, limit);
      var kept := Kept(s, limit);
      CleanFront(s, |kept|);
      assert s[..|kept|] == kept;
      assert forall i :: 0 <= i < |kept| ==> r[i] == kept[i];
      assert Clean(r);
    }
    CleanIsCollapsed(r);
  }

  // What is kept ends where a word ends.
  predicate EndsAWord(kept: string, s: string)
  {
    kept < s && s[|kept|] == ' '
  }

  // A text over the limit is cut between words exactly when a space lies in the back half of the
  // budget, or the budget happens to end a word.
  lemma CutsBetweenWordsIff(s: string, limit: nat)
    requires Clean(s) && 2 <= limit < |s|
    ensures EndsAWord(Kept(s, limit), s) <==> limit / 2 <= LastSpace(s[..limit - 1]) || s[limit - 1] == ' '
  {
    hide Kept, LastSpace, Clean;
    var cut := s[..limit - 1];
    var at := LastSpace(cut);
    WhereItIsCut(s, limit);
    LastSpaceIs(cut);
    assert at >= 0 ==> cut[at] == s[at];
  }

  function Fill(n: nat, c: char): string
  {
    seq(n, _ => c)
  }

  // A word is cut although none exceeds the budget of limit - 1 characters: a short word before one that
  // fills the budget.
  lemma FittingWordIsCut(limit: nat) returns (s: string, words: seq<string>)
    requires 4 <= limit
    ensures s == Join(words, ' ') && Clean(s) && limit < |s|
    ensures forall i :: 0 <= i < |words| ==> |words[i]| <= limit - 1
    ensures !EndsAWord(Kept(s, limit), s)
  {
    var long := Fill(limit - 1, 'b');
    words := ["a", long];
    s := Join(words, ' ');
    JoinStep(["a"], long, ' ');
    assert words == ["a"] + [long] && Join(["a"], ' ') == "a";
    assert s == "a" + ([' '] + long);
    assert s[0] == 'a' && s[1] == ' ' && forall i :: 2 <= i < |s| ==> s[i] == 'b';
    assert Clean(s);
    LastSpaceIs(s[..limit - 1]);
    CutsBetweenWordsIff(s, limit);
  }
}
