/**
 * The backup history of a project's CLAUDE.md: how a backup is named, the
 * name order that `sorted` puts the backups in, and which backups survive the
 * clean-up that keeps only the newest ten.
 *
 * The `history` directory is a map from file name to file content.
 */
module Backups {
  import opened Strings

  /** How many backups the clean-up keeps. */
  const Keep := 10

  const BackupPrefix := "CLAUDE_"
  const BackupSuffix := ".md"

  /** `CLAUDE_{timestamp}.md`. */
  function BackupName(timestamp: string): (n: string)
    ensures IsBackupName(n)
    ensures |n| == |timestamp| + 10
    ensures n[7..|n| - 3] == timestamp
  {
    BackupPrefix + timestamp + BackupSuffix
  }

  /** The names the pattern `CLAUDE_*.md` matches (the `*` may be empty). */
  predicate IsBackupName(n: string)
  {
    |n| >= 10 && n[..7] == BackupPrefix && n[|n| - 3..] == BackupSuffix
  }

  /** Distinct timestamps give distinct backup names. */
  lemma BackupNameInjective(t1: string, t2: string)
    ensures BackupName(t1) == BackupName(t2) <==> t1 == t2
  {
    if BackupName(t1) == BackupName(t2) {
      assert t1 == BackupName(t1)[7..|BackupName(t1)| - 3];
    }
  }

  lemma {:induction false} LexLessCommonPrefix(p: string, a: string, b: string)
    ensures LexLess(p + a, p + b) <==> LexLess(a, b)
    decreases |p|
  {
    if |p| > 0 {
      assert (p + a)[1..] == p[1..] + a && (p + b)[1..] == p[1..] + b;
      LexLessCommonPrefix(p[1..], a, b);
    } else {
      assert p + a == a && p + b == b;
    }
  }

  lemma {:induction false} LexLessSameLength(a: string, b: string, s: string)
    requires |a| == |b|
    ensures LexLess(a + s, b + s) <==> LexLess(a, b)
    decreases |a|
  {
    if |a| == 0 {
      assert a + s == s && b + s == s;
      LexLessIrreflexive(s);
    } else if a[0] == b[0] {
      assert (a + s)[1..] == a[1..] + s && (b + s)[1..] == b[1..] + s;
      LexLessSameLength(a[1..], b[1..], s);
    }
  }

  /**
   * For timestamps of one width (`%Y%m%d_%H%M%S` always gives 15 characters)
   * the backup names sort exactly as the timestamps do.
   */
  lemma BackupNameOrder(t1: string, t2: string)
    requires |t1| == |t2|
    ensures LexLess(BackupName(t1), BackupName(t2)) <==> LexLess(t1, t2)
  {
    assert BackupName(t1) == BackupPrefix + (t1 + BackupSuffix);
    assert BackupName(t2) == BackupPrefix + (t2 + BackupSuffix);
    LexLessCommonPrefix(BackupPrefix, t1 + BackupSuffix, t2 + BackupSuffix);
    LexLessSameLength(t1, t2, BackupSuffix);
  }

  /** The backups present in a history directory. */
  function BackupsIn(history: map<string, string>): (b: set<string>)
    ensures forall n :: n in b <==> n in history && IsBackupName(n)
  {
    set n | n in history && IsBackupName(n)
  }

  /** The backups that sort after `name`. */
  function Newer(backups: set<string>, name: string): (s: set<string>)
    ensures s <= backups
    ensures name !in s
  {
    LexLessIrreflexive(name);
    set m | m in backups && LexLess(name, m)
  }

  /** The backups that survive the clean-up: those with fewer than `Keep` backups sorting after them. */
  function Retained(backups: set<string>): (kept: set<string>)
    ensures kept <= backups
  {
    set n | n in backups && |Newer(backups, n)| < Keep
  }

  /**
   * The history after the clean-up: every file that is not a backup stays, and
   * so does every retained backup.
   */
  function Pruned(history: map<string, string>): map<string, string>
  {
    map n | n in history && (!IsBackupName(n) || n in Retained(BackupsIn(history))) :: history[n]
  }

  /** `history` without the files named in `gone`. */
  function Without(history: map<string, string>, gone: seq<string>): (h: map<string, string>)
    ensures forall n :: n in h <==> n in history && n !in gone
    ensures forall n :: n in h ==> h[n] == history[n]
  {
    map n | n in history && n !in gone :: history[n]
  }

  lemma WithoutNothing(history: map<string, string>)
    ensures Without(history, []) == history
  {
    assert Without(history, []).Keys == history.Keys;
  }

  /** Deleting the files of `gone` one at a time, in order. */
  lemma WithoutOneMore(history: map<string, string>, gone: seq<string>, i: int)
    requires 0 <= i < |gone|
    ensures Without(history, gone[..i]) - {gone[i]} == Without(history, gone[..i + 1])
  {
    assert gone[..i + 1] == gone[..i] + [gone[i]];
    assert (Without(history, gone[..i]) - {gone[i]}).Keys == Without(history, gone[..i + 1]).Keys;
  }

  // ----- sorting -----

  /** Strictly increasing in name order. */
  predicate Sorted(r: seq<string>)
  {
    forall i, j :: 0 <= i < j < |r| ==> LexLess(r[i], r[j])
  }

  /** `m` is the first of `s` in name order. */
  predicate IsFirst(m: string, s: set<string>)
  {
    m in s && forall x :: x in s && x != m ==> LexLess(m, x)
  }

  lemma {:induction false} FirstExists(s: set<string>)
    requires s != {}
    ensures exists m :: IsFirst(m, s)
    decreases |s|
  {
    var x :| x in s;
    if s - {x} == {} {
      assert s == {x};
      assert IsFirst(x, s);
    } else {
      FirstExists(s - {x});
      var m :| IsFirst(m, s - {x});
      LexLessTotal(m, x);
      if LexLess(m, x) {
        assert IsFirst(m, s);
      } else {
        forall y | y in s && y != x
          ensures LexLess(x, y)
        {
          if y != m {
            LexLessTransitive(x, m, y);
          }
        }
        assert IsFirst(x, s);
      }
    }
  }

  lemma FirstUnique(s: set<string>)
    ensures forall a, b :: IsFirst(a, s) && IsFirst(b, s) ==> a == b
  {
    forall a, b | IsFirst(a, s) && IsFirst(b, s)
      ensures a == b
    {
      LexLessAsymmetric(a, b);
    }
  }

  /** `sorted(...)` over a set of file names: every name once, in name order. */
  function SortedNames(s: set<string>): (r: seq<string>)
    ensures forall x :: x in r <==> x in s
    ensures |r| == |s|
    ensures Sorted(r)
    decreases |s|
  {
    if s == {} then []
    else
      FirstExists(s);
      FirstUnique(s);
      var m :| IsFirst(m, s);
      var rest := SortedNames(s - {m});
      PrependFirst(m, s, rest);
      [m] + rest
  }

  lemma PrependFirst(m: string, s: set<string>, rest: seq<string>)
    requires IsFirst(m, s) && Sorted(rest)
    requires forall x :: x in rest <==> x in s - {m}
    ensures Sorted([m] + rest)
    ensures forall x :: x in [m] + rest <==> x in s
  {
    var r := [m] + rest;
    forall i, j | 0 <= i < j < |r|
      ensures LexLess(r[i], r[j])
    {
      assert r[j] == rest[j - 1] && rest[j - 1] in rest;
      if i > 0 {
        assert r[i] == rest[i - 1];
      }
    }
  }

  // ----- what the clean-up keeps -----

  lemma SortedDistinct(r: seq<string>, i: int, j: int)
    requires Sorted(r) && 0 <= i < |r| && 0 <= j < |r| && i != j
    ensures r[i] != r[j]
  {
    LexLessIrreflexive(r[i]);
    LexLessIrreflexive(r[j]);
  }

  /** The names a sequence holds. */
  function Elements(t: seq<string>): (e: set<string>)
    ensures forall x :: x in e <==> x in t
  {
    set x | x in t
  }

  lemma SortedSlice(r: seq<string>, k: int)
    requires Sorted(r) && 0 <= k <= |r|
    ensures Sorted(r[k..])
  {
    assert forall i :: 0 <= i < |r| - k ==> r[k..][i] == r[k + i];
  }

  /** A strictly sorted sequence holds `|t|` distinct names. */
  lemma {:induction false} SortedCard(t: seq<string>)
    requires Sorted(t)
    ensures |Elements(t)| == |t|
    decreases |t|
  {
    if |t| > 0 {
      SortedSlice(t, 1);
      SortedCard(t[1..]);
      assert Elements(t) == {t[0]} + Elements(t[1..]) by {
        assert t == [t[0]] + t[1..];
      }
      if t[0] in t[1..] {
        var j :| 0 <= j < |t[1..]| && t[1..][j] == t[0];
        SortedDistinct(t, 0, j + 1);
      }
    }
  }

  /** Cutting a sorted sequence at `k`: the names after the cut are those not before it. */
  lemma SortedCut(r: seq<string>, k: int)
    requires Sorted(r) && 0 <= k <= |r|
    ensures forall x :: x in r[k..] <==> x in r && x !in r[..k]
  {
    assert r == r[..k] + r[k..];
    forall x | x in r[k..] && x in r[..k]
      ensures false
    {
      var i :| 0 <= i < k && r[..k][i] == x;
      var j :| 0 <= j < |r| - k && r[k..][j] == x;
      SortedDistinct(r, i, k + j);
    }
  }

  /** Of a sorted enumeration, the names after position `i` are exactly those after `r[i]`. */
  lemma NewerInSorted(r: seq<string>, s: set<string>, i: int)
    requires Sorted(r) && (forall x :: x in r <==> x in s) && 0 <= i < |r|
    ensures Newer(s, r[i]) == Elements(r[i + 1..])
  {
    forall x | x in Newer(s, r[i])
      ensures x in r[i + 1..]
    {
      var j :| 0 <= j < |r| && r[j] == x;
      if j < i {
        LexLessAsymmetric(r[j], r[i]);
      }
      assert r[i + 1..][j - i - 1] == x;
    }
    forall x | x in r[i + 1..]
      ensures x in Newer(s, r[i])
    {
      var j :| 0 <= j < |r| - i - 1 && r[i + 1..][j] == x;
    }
  }

  /** Position `i` of a sorted enumeration has fewer than `Keep` names after it exactly when it is not cut. */
  lemma KeptIff(r: seq<string>, s: set<string>, i: int, k: int)
    requires Sorted(r) && (forall x :: x in r <==> x in s) && 0 <= i < |r|
    requires k == if |r| > Keep then |r| - Keep else 0
    ensures |Newer(s, r[i])| < Keep <==> r[i] !in r[..k]
  {
    NewerInSorted(r, s, i);
    SortedSlice(r, i + 1);
    SortedCard(r[i + 1..]);
    SortedCut(r, k);
    SortedCut(r, i);
    assert r[i..][0] == r[i];
  }

  /** Of the backups enumerated in name order, exactly those from the cut at `k` on are retained. */
  lemma RetainedBySorted(r: seq<string>, b: set<string>, k: int)
    requires Sorted(r) && (forall x :: x in r <==> x in b)
    requires k == if |r| > Keep then |r| - Keep else 0
    ensures Retained(b) == Elements(r[k..])
  {
    SortedCut(r, k);
    forall x | x in b
      ensures x in Retained(b) <==> x in r[k..]
    {
      var i :| 0 <= i < |r| && r[i] == x;
      KeptIff(r, b, i, k);
    }
  }

  /** The clean-up retains `min(Keep, n)` of `n` backups. */
  lemma RetainedCount(b: set<string>)
    ensures |Retained(b)| == if |b| > Keep then Keep else |b|
  {
    var r := SortedNames(b);
    var k := if |r| > Keep then |r| - Keep else 0;
    RetainedBySorted(r, b, k);
    CutCount(r, k);
  }

  lemma CutCount(r: seq<string>, k: int)
    requires Sorted(r) && 0 <= k <= |r|
    ensures |Elements(r[k..])| == |r| - k
  {
    SortedSlice(r, k);
    SortedCard(r[k..]);
  }

  /** The backups of the cleaned-up history are the retained ones. */
  lemma BackupsOfPruned(history: map<string, string>)
    ensures BackupsIn(Pruned(history)) == Retained(BackupsIn(history))
  {
  }

  /**
   * With the backups enumerated in name order, the clean-up removes exactly the
   * first `|r| - Keep` of them (none when there are at most `Keep`).
   */
  lemma PrunedDropsOldest(history: map<string, string>)
    ensures var r := SortedNames(BackupsIn(history));
            Pruned(history) == Without(history, r[..if |r| > Keep then |r| - Keep else 0])
  {
    var r := SortedNames(BackupsIn(history));
    PrunedIsWithout(history, r, if |r| > Keep then |r| - Keep else 0);
  }

  /** The deletions `create_backup` performs: the sorted backups up to the cut. */
  lemma CleanupPlan(history: map<string, string>, backups: seq<string>, cut: int)
    requires backups == SortedNames(BackupsIn(history))
    requires cut == if |backups| > Keep then |backups| - Keep else 0
    ensures Pruned(history) == Without(history, backups[..cut])
  {
    PrunedIsWithout(history, backups, cut);
  }

  lemma PrunedIsWithout(history: map<string, string>, r: seq<string>, k: int)
    requires Sorted(r) && forall x :: x in r <==> x in BackupsIn(history)
    requires k == if |r| > Keep then |r| - Keep else 0
    ensures Pruned(history) == Without(history, r[..k])
  {
    RetainedBySorted(r, BackupsIn(history), k);
    SortedCut(r, k);
    assert Pruned(history).Keys == Without(history, r[..k]).Keys;
  }

  /** The clean-up leaves `min(Keep, n)` backups of the `n` there were. */
  lemma PrunedCount(history: map<string, string>)
    ensures var n := |BackupsIn(history)|;
            |BackupsIn(Pruned(history))| == if n > Keep then Keep else n
  {
    BackupsOfPruned(history);
    RetainedCount(BackupsIn(history));
  }

  /** Every backup the clean-up removes is older than every backup it keeps. */
  lemma RetainedAreNewest(b: set<string>, gone: string, kept: string)
    requires gone in b && gone !in Retained(b) && kept in Retained(b)
    ensures LexLess(gone, kept)
  {
    LexLessTotal(gone, kept);
    if !LexLess(gone, kept) {
      // `kept` sorts before `gone`, so every backup newer than `gone` is newer than `kept` too.
      forall x | x in Newer(b, gone)
        ensures x in Newer(b, kept)
      {
        LexLessTransitive(kept, gone, x);
      }
      assert Newer(b, gone) + {gone} <= Newer(b, kept);
      SubsetCard(Newer(b, gone) + {gone}, Newer(b, kept));
      assert false;
    }
  }

  /** Every backup the clean-up deletes sorts before every backup it keeps. */
  lemma PrunedRemovesOldest(history: map<string, string>, gone: string, kept: string)
    requires gone in BackupsIn(history) && gone !in Pruned(history)
    requires kept in BackupsIn(Pruned(history))
    ensures LexLess(gone, kept)
  {
    BackupsOfPruned(history);
    RetainedAreNewest(BackupsIn(history), gone, kept);
  }

  lemma SubsetCard<T>(a: set<T>, b: set<T>)
    requires a <= b
    ensures |a| <= |b|
  {
    assert b == a + (b - a);
  }

  /** Files that are not backups are never touched by the clean-up. */
  lemma PrunedKeepsOtherFiles(history: map<string, string>)
    ensures forall n :: n in history && !IsBackupName(n) ==> n in Pruned(history) && Pruned(history)[n] == history[n]
    ensures forall n :: n in Pruned(history) ==> n in history && Pruned(history)[n] == history[n]
  {
  }

  /** With at most `Keep` backups nothing is removed. */
  lemma RetainedAllWhenFew(b: set<string>)
    requires |b| <= Keep
    ensures Retained(b) == b
  {
    forall n | n in b
      ensures |Newer(b, n)| < Keep
    {
      SubsetCard(Newer(b, n) + {n}, b);
    }
  }

  lemma PrunedKeepsAllWhenFew(history: map<string, string>)
    requires |BackupsIn(history)| <= Keep
    ensures Pruned(history) == history
  {
    RetainedAllWhenFew(BackupsIn(history));
    assert Pruned(history).Keys == history.Keys;
  }

  /** The backup that sorts last (the one just written) always survives. */
  lemma NewestKept(history: map<string, string>, name: string)
    requires name in BackupsIn(history)
    requires forall b :: b in BackupsIn(history) && b != name ==> LexLess(b, name)
    ensures name in Pruned(history) && Pruned(history)[name] == history[name]
  {
    forall x | x in BackupsIn(history) && LexLess(name, x)
      ensures false
    {
      LexLessIrreflexive(name);
      LexLessAsymmetric(x, name);
    }
    assert Newer(BackupsIn(history), name) == {};
  }

  /** Retaining twice retains the same backups. */
  lemma RetainedIdempotent(b: set<string>)
    ensures Retained(Retained(b)) == Retained(b)
  {
    var once := Retained(b);
    forall n | n in once
      ensures |Newer(once, n)| < Keep
    {
      SubsetCard(Newer(once, n), Newer(b, n));
    }
  }

  /** Cleaning up twice removes nothing more. */
  lemma PrunedIdempotent(history: map<string, string>)
    ensures Pruned(Pruned(history)) == Pruned(history)
  {
    BackupsOfPruned(history);
    RetainedIdempotent(BackupsIn(history));
    assert Pruned(Pruned(history)).Keys == Pruned(history).Keys;
  }
}
