/**
 * The project's `.claude` directory as far as generating touches it: the
 * CLAUDE.md target (absent or holding text) and the `history` directory of
 * backups. `CreateBackup` and `ActionGenerate` change it in place.
 */
module Workspace {
  import opened Wrappers
  import opened Strings
  import opened Catalog
  import opened Project
  import opened Backups
  import opened Generator

  class ClaudeDir {
    /** The content of `.claude/CLAUDE.md`, or `None` when the file does not exist. */
    var claudeMd: Option<string>
    /** The files of `.claude/history`, by name. */
    var history: map<string, string>

    constructor (claudeMd: Option<string>, history: map<string, string>)
      ensures this.claudeMd == claudeMd && this.history == history
    {
      this.claudeMd := claudeMd;
      this.history := history;
    }

    /**
     * `create_backup`: copies the current CLAUDE.md to `CLAUDE_<timestamp>.md`,
     * then sorts the backup names and deletes all but the last `Keep`.
     */
    method CreateBackup(timestamp: string)
      requires claudeMd.Some?
      modifies this
      ensures claudeMd == old(claudeMd)
      ensures history == Pruned(old(history)[BackupName(timestamp) := old(claudeMd).value])
    {
      history := history[BackupName(timestamp) := claudeMd.value];
      ghost var copied := history;
      assert copied == old(history)[BackupName(timestamp) := old(claudeMd).value];
      var backups := SortedNames(BackupsIn(history));
      var cut := if |backups| > Keep then |backups| - Keep else 0;
      CleanupPlan(copied, backups, cut);
      DeleteFirst(backups, cut);
    }

    /** Deletes `backups[..cut]` one file at a time. */
    method DeleteFirst(backups: seq<string>, cut: nat)
      requires cut <= |backups|
      modifies this
      ensures claudeMd == old(claudeMd)
      ensures history == Without(old(history), backups[..cut])
    {
      WithoutNothing(history);
      for i := 0 to cut
        invariant claudeMd == old(claudeMd)
        invariant history == Without(old(history), backups[..i])
      {
        WithoutOneMore(old(history), backups, i);
        history := history - {backups[i]};
      }
    }
  }

  /**
   * `action_generate`: renders the configuration's selection, iterated in some
   * order (returned as `listing`), backs up the old CLAUDE.md only when it
   * exists, and then overwrites the target with the document.
   */
  method ActionGenerate(dir: ClaudeDir, config: ProjectConfig, totalText: string, percentText: string,
                        servers: seq<McpServer>, timestamp: string) returns (listing: Listing)
    modifies dir
    ensures Lists(listing, config.Selected())
    ensures dir.claudeMd == Some(Join(DocumentLines(totalText, percentText, listing, servers), "\n"))
    ensures old(dir.claudeMd).Some? ==>
              dir.history == Pruned(old(dir.history)[BackupName(timestamp) := old(dir.claudeMd).value])
    ensures old(dir.claudeMd).None? ==> dir.history == old(dir.history)
  {
    listing := IterationOrder(config.Selected());
    var document := GenerateClaudeMd(totalText, percentText, listing, servers);
    if dir.claudeMd.Some? {
      dir.CreateBackup(timestamp);
    }
    dir.claudeMd := Some(document);
  }

  /**
   * Regenerating over an existing CLAUDE.md keeps its previous text: the new
   * backup holds it, as long as no older-named backup sorts after it.
   */
  lemma PreviousContentBackedUp(history: map<string, string>, previous: string, timestamp: string)
    requires forall b :: b in BackupsIn(history) && b != BackupName(timestamp) ==> LexLess(b, BackupName(timestamp))
    ensures var after := Pruned(history[BackupName(timestamp) := previous]);
            BackupName(timestamp) in after && after[BackupName(timestamp)] == previous
  {
    var copied := history[BackupName(timestamp) := previous];
    NewestKept(copied, BackupName(timestamp));
  }

  /** A generate run leaves between one and `Keep` backups when CLAUDE.md existed. */
  lemma BackupCountAfterGenerate(history: map<string, string>, previous: string, timestamp: string)
    ensures var after := Pruned(history[BackupName(timestamp) := previous]);
            1 <= |BackupsIn(after)| <= Keep
  {
    var copied := history[BackupName(timestamp) := previous];
    assert BackupName(timestamp) in BackupsIn(copied);
    PrunedCount(copied);
  }

  /**
   * Each generate run over an existing CLAUDE.md with a fresh timestamp adds one
   * backup until there are `Keep`, and from then on the count stays at `Keep`.
   */
  lemma BackupCountGrows(history: map<string, string>, previous: string, timestamp: string)
    requires BackupName(timestamp) !in history
    ensures var n := |BackupsIn(history)| + 1;
            |BackupsIn(Pruned(history[BackupName(timestamp) := previous]))| == if n > Keep then Keep else n
  {
    var copied := history[BackupName(timestamp) := previous];
    assert BackupsIn(copied) == BackupsIn(history) + {BackupName(timestamp)};
    PrunedCount(copied);
  }
}
