/**
 * The helpers of the agent-wallet setup script: the check of the configured entity secret, and
 * the update of the `.env` text that records the new wallet id.
 */
module SetupWallet {
  import opened Wrappers
  import opened PyData
  import Text
  import OmniClient

  /**
   * `validate_entity_secret`: unset, then length, then `int(s, 16)` (`parsesHex`), each with
   * its own message.
   */
  function ValidateEntitySecret(secret: Option<string>, parsesHex: string -> bool): (r: (bool, Option<string>))
    ensures !Truthy(secret) ==> r == (false, Some("ENTITY_SECRET not set"))
    ensures Truthy(secret) && |secret.value| != 64 ==>
      r == (false, Some("ENTITY_SECRET must be 64 hex characters, got " + Text.NatToString(|secret.value|)))
    ensures Truthy(secret) && |secret.value| == 64 ==>
      (r.0 <==> parsesHex(secret.value))
      && (r.0 ==> r.1.None?)
      && (!r.0 ==> r.1 == Some("ENTITY_SECRET must be valid hexadecimal (0-9, a-f)"))
  {
    if !Truthy(secret) then (false, Some("ENTITY_SECRET not set"))
    else if |secret.value| != 64 then (false, Some("ENTITY_SECRET must be 64 hex characters, got " + Text.NatToString(|secret.value|)))
    else if !parsesHex(secret.value) then (false, Some("ENTITY_SECRET must be valid hexadecimal (0-9, a-f)"))
    else (true, None)
  }

  /** The script accepts exactly the secrets the payment client passes on to the SDK. */
  lemma ValidationAgreesWithClient(secret: Option<string>, parsesHex: string -> bool)
    ensures ValidateEntitySecret(secret, parsesHex).0 <==> OmniClient.EntitySecretForSdk(secret, parsesHex).Some?
  {
  }

  /** A 64-digit hexadecimal secret is valid whenever `int(s, 16)` accepts hex digits. */
  lemma HexSecretValid(secret: string, parsesHex: string -> bool)
    requires |secret| == 64 && Text.AllHexDigits(secret)
    requires forall s :: s != "" && Text.AllHexDigits(s) ==> parsesHex(s)
    ensures ValidateEntitySecret(Some(secret), parsesHex) == (true, None)
  {
    assert secret != "";
    assert parsesHex(secret);
  }

  const WalletKey := "AGENT_CIRCLE_WALLET_ID"
  const Assignment := "AGENT_CIRCLE_WALLET_ID="
  /** The comment line the script writes above the new assignment. */
  const Comment := "# Agent " + "Circle " + "Wallet " + "for " + "autonomous " + "payments"

  function Lines(s: string): seq<string> {
    Text.Split(s, '\n')
  }

  /** One line of the rewrite: an assignment of the key gets the new id, every other line stays. */
  function UpdatedLine(line: string, walletId: string): (r: string)
    ensures Text.StartsWith(line, Assignment) ==> r == Assignment + walletId
    ensures !Text.StartsWith(line, Assignment) ==> r == line
  {
    if Text.StartsWith(line, Assignment) then Assignment + walletId else line
  }

  function UpdatedLines(lines: seq<string>, walletId: string): (r: seq<string>)
    ensures |r| == |lines|
  {
    seq(|lines|, k requires 0 <= k < |lines| => UpdatedLine(lines[k], walletId))
  }

  /** The block appended when the key is not in the file yet. */
  function AppendedBlock(walletId: string): string {
    "\n" + Comment + "\n" + Assignment + walletId + "\n"
  }

  /** The content before the block: a newline is added to non-empty content that lacks one. */
  function Terminated(content: string): (r: string)
    ensures r == [] || r[|r| - 1] == '\n'
    ensures Text.StartsWith(r, content)
    ensures r == content || r == content + "\n"
    ensures content == [] || content[|content| - 1] == '\n' ==> r == content
  {
    if content != "" && !Text.EndsWith(content, "\n") then content + "\n" else content
  }

  /**
   * The `.env` text after recording `walletId`: with the key mentioned anywhere, every line that
   * assigns it is rewritten; otherwise the assignment is appended after a comment.
   */
  function EnvUpdated(content: string, walletId: string): (r: string)
    ensures !Text.Contains(content, WalletKey) ==>
      r == content + AppendedBlock(walletId) || r == content + "\n" + AppendedBlock(walletId)
  {
    if Text.Contains(content, WalletKey) then Text.Join(UpdatedLines(Lines(content), walletId), '\n')
    else Terminated(content) + AppendedBlock(walletId)
  }

  /** The `for line in lines` loop of the rewrite. */
  method RewriteLines(lines: seq<string>, walletId: string) returns (updatedLines: seq<string>)
    ensures updatedLines == UpdatedLines(lines, walletId)
  {
    updatedLines := [];
    for i := 0 to |lines|
      invariant |updatedLines| == i
      invariant forall k :: 0 <= k < i ==> updatedLines[k] == UpdatedLine(lines[k], walletId)
    {
      if Text.StartsWith(lines[i], Assignment) {
        updatedLines := updatedLines + [Assignment + walletId];
      } else {
        updatedLines := updatedLines + [lines[i]];
      }
    }
  }

  /** The update as the script performs it. */
  method UpdateEnvContent(content: string, walletId: string) returns (updated: string)
    ensures updated == EnvUpdated(content, walletId)
  {
    if Text.Contains(content, WalletKey) {
      var updatedLines := RewriteLines(Text.Split(content, '\n'), walletId);
      updated := Text.Join(updatedLines, '\n');
    } else {
      updated := content;
      if updated != "" && !Text.EndsWith(updated, "\n") {
        updated := updated + "\n";
      }
      assert updated == Terminated(content);
      updated := updated + AppendedBlock(walletId);
    }
  }

  lemma ConstantLinesSeparatorFree()
    ensures '\n' !in Comment && '\n' !in Assignment
  {
    assert '\n' !in "# Agent ";
    assert '\n' !in "Circle ";
    assert '\n' !in "Wallet ";
    assert '\n' !in "for ";
    assert '\n' !in "autonomous ";
    assert '\n' !in "payments";
  }

  /** Every line of `content` that assigns the key assigns `walletId`. */
  predicate AssignsOnly(content: string, walletId: string) {
    forall k :: 0 <= k < |Lines(content)| && Text.StartsWith(Lines(content)[k], Assignment) ==>
      Lines(content)[k] == Assignment + walletId
  }

  /** Some line of `content` assigns the key. */
  predicate HasAssignment(content: string) {
    exists k :: 0 <= k < |Lines(content)| && Text.StartsWith(Lines(content)[k], Assignment)
  }

  lemma UpdatedLinesSeparatorFree(lines: seq<string>, walletId: string)
    requires forall k :: 0 <= k < |lines| ==> '\n' !in lines[k]
    requires '\n' !in walletId
    ensures forall k :: 0 <= k < |lines| ==> '\n' !in UpdatedLines(lines, walletId)[k]
  {
    assert '\n' !in Assignment;
  }

  /**
   * With the key present, the rewrite keeps the number of lines, turns each assignment line into
   * `AGENT_CIRCLE_WALLET_ID=<id>` and leaves every other line as it was.
   */
  lemma EnvRewriteLines(content: string, walletId: string)
    requires Text.Contains(content, WalletKey)
    requires '\n' !in walletId
    ensures |Lines(EnvUpdated(content, walletId))| == |Lines(content)|
    ensures forall k :: 0 <= k < |Lines(content)| ==>
      Lines(EnvUpdated(content, walletId))[k] ==
        if Text.StartsWith(Lines(content)[k], Assignment) then Assignment + walletId else Lines(content)[k]
  {
    var lines := Lines(content);
    Text.SplitPartsSeparatorFree(content, '\n');
    UpdatedLinesSeparatorFree(lines, walletId);
    Text.SplitJoin(UpdatedLines(lines, walletId), '\n');
  }

  /** A key that is only mentioned (in a comment, say) and never assigned leaves the text as it is. */
  lemma MentionWithoutAssignmentUnchanged(content: string, walletId: string)
    requires Text.Contains(content, WalletKey)
    requires !HasAssignment(content)
    ensures EnvUpdated(content, walletId) == content
  {
    var lines := Lines(content);
    assert UpdatedLines(lines, walletId) == lines;
    Text.JoinSplit(content, '\n');
  }

  /** A line of the text that assigns the key makes the text mention the key. */
  lemma AssignmentMentionsKey(content: string, k: int)
    requires 0 <= k < |Lines(content)| && Text.StartsWith(Lines(content)[k], Assignment)
    ensures Text.Contains(content, WalletKey)
  {
    var line := Lines(content)[k];
    Text.SplitPartContained(content, '\n', k);
    assert line[..|WalletKey|] == WalletKey;
    Text.StartsWithContains(line, WalletKey);
    Text.ContainsTrans(content, line, WalletKey);
  }

  /** The lines of the appended block. */
  lemma AppendedBlockLines(walletId: string)
    requires '\n' !in walletId
    ensures Lines(AppendedBlock(walletId)) == ["", Comment, Assignment + walletId, ""]
  {
    var a := Assignment + walletId;
    var parts := ["", Comment, a, ""];
    assert Text.Join([a, ""], '\n') == a + "\n" by { assert [a, ""][1..] == [""]; }
    assert Text.Join([Comment, a, ""], '\n') == Comment + "\n" + (a + "\n") by {
      assert [Comment, a, ""][1..] == [a, ""];
    }
    assert Text.Join(parts, '\n') == "\n" + (Comment + "\n" + (a + "\n")) by {
      assert parts[1..] == [Comment, a, ""];
    }
    assert "\n" + (Comment + "\n" + (a + "\n")) == AppendedBlock(walletId);
    ConstantLinesSeparatorFree();
    assert '\n' !in a by {
      forall k | 0 <= k < |a| ensures a[k] != '\n' {
        if k < |Assignment| { assert a[k] == Assignment[k]; } else { assert a[k] == walletId[k - |Assignment|]; }
      }
    }
    assert forall k :: 0 <= k < |parts| ==> '\n' !in parts[k];
    Text.SplitJoin(parts, '\n');
  }

  lemma CommentIsNotAssignment()
    ensures !Text.StartsWith(Comment, Assignment)
  {
    assert ("# Agent " + "Circle ")[0] == '#';
    assert Assignment[0] == 'A';
  }

  /** Without the key, no line of the text before the appended block assigns it. */
  lemma AppendedAfter(content: string, walletId: string) returns (before: seq<string>)
    requires !Text.Contains(content, WalletKey)
    requires '\n' !in walletId
    ensures Lines(EnvUpdated(content, walletId)) == before + ["", Comment, Assignment + walletId, ""]
    ensures forall k :: 0 <= k < |before| ==> !Text.StartsWith(before[k], Assignment)
  {
    var t := Terminated(content);
    assert EnvUpdated(content, walletId) == t + AppendedBlock(walletId);
    AppendedBlockLines(walletId);
    var x := TerminatedBody(content);
    before := if t == [] then [] else Lines(x);
    LinesAfterTerminated(t, AppendedBlock(walletId));
    NoAssignmentInPrefix(content, x);
  }

  /** The text without the newline `Terminated` ends it with: a prefix of the content. */
  lemma TerminatedBody(content: string) returns (x: string)
    ensures Terminated(content) == [] || Terminated(content) == x + "\n"
    ensures Text.StartsWith(content, x)
  {
    var t := Terminated(content);
    if t == [] {
      x := [];
    } else {
      x := t[..|t| - 1];
      assert t == x + "\n";
    }
  }

  /** The lines of a newline-terminated text followed by more text. */
  lemma LinesAfterTerminated(t: string, b: string)
    requires t == [] || t[|t| - 1] == '\n'
    ensures Lines(t + b) == (if t == [] then [] else Lines(t[..|t| - 1])) + Lines(b)
  {
    if t == [] {
      assert t + b == b;
    } else {
      var x := t[..|t| - 1];
      assert t + b == x + ['\n'] + b;
      Text.SplitConcat(x, b, '\n');
    }
  }

  /** A text that does not mention the key has no line that assigns it, nor has any prefix of it. */
  lemma NoAssignmentInPrefix(content: string, x: string)
    requires !Text.Contains(content, WalletKey) && Text.StartsWith(content, x)
    ensures forall k :: 0 <= k < |Lines(x)| ==> !Text.StartsWith(Lines(x)[k], Assignment)
  {
    forall k | 0 <= k < |Lines(x)| && Text.StartsWith(Lines(x)[k], Assignment)
      ensures false
    {
      AssignmentMentionsKey(x, k);
      Text.StartsWithContains(content, x);
      Text.ContainsTrans(content, x, WalletKey);
    }
  }

  /**
   * Without the key, the text is kept as a prefix and exactly one assignment line follows: the
   * one for `walletId`.
   */
  lemma EnvAppendAssigns(content: string, walletId: string)
    requires !Text.Contains(content, WalletKey)
    requires '\n' !in walletId
    ensures Text.StartsWith(EnvUpdated(content, walletId), content)
    ensures AssignsOnly(EnvUpdated(content, walletId), walletId)
    ensures HasAssignment(EnvUpdated(content, walletId))
  {
    var r := EnvUpdated(content, walletId);
    var t := Terminated(content);
    assert r[..|t|] == t;
    assert t[..|content|] == content;
    var before := AppendedAfter(content, walletId);
    AppendedLinesAssign(Lines(r), before, walletId);
  }

  /** The line facts behind `EnvAppendAssigns`, about the lines alone. */
  lemma AppendedLinesAssign(lines: seq<string>, before: seq<string>, walletId: string)
    requires lines == before + ["", Comment, Assignment + walletId, ""]
    requires forall k :: 0 <= k < |before| ==> !Text.StartsWith(before[k], Assignment)
    ensures forall k :: 0 <= k < |lines| && Text.StartsWith(lines[k], Assignment) ==> lines[k] == Assignment + walletId
    ensures Text.StartsWith(lines[|before| + 2], Assignment)
  {
    CommentIsNotAssignment();
    forall k | 0 <= k < |lines| && Text.StartsWith(lines[k], Assignment)
      ensures lines[k] == Assignment + walletId
    {
      assert k == |before| + 2;
    }
    assert lines[|before| + 2] == Assignment + walletId;
  }

  /** A text that mentions the key and assigns only `walletId` is a fixed point of the update. */
  lemma StableContentUnchanged(content: string, walletId: string)
    requires Text.Contains(content, WalletKey)
    requires AssignsOnly(content, walletId)
    ensures EnvUpdated(content, walletId) == content
  {
    var lines := Lines(content);
    assert UpdatedLines(lines, walletId) == lines;
    Text.JoinSplit(content, '\n');
  }

  /** Recording the same wallet id twice gives the text of recording it once. */
  lemma EnvUpdateIdempotent(content: string, walletId: string)
    requires '\n' !in walletId
    ensures EnvUpdated(EnvUpdated(content, walletId), walletId) == EnvUpdated(content, walletId)
  {
    var r := EnvUpdated(content, walletId);
    if Text.Contains(content, WalletKey) {
      EnvRewriteLines(content, walletId);
      assert AssignsOnly(r, walletId);
      if HasAssignment(content) {
        var k :| 0 <= k < |Lines(content)| && Text.StartsWith(Lines(content)[k], Assignment);
        assert Text.StartsWith(Lines(r)[k], Assignment);
        AssignmentMentionsKey(r, k);
      } else {
        MentionWithoutAssignmentUnchanged(content, walletId);
      }
    } else {
      EnvAppendAssigns(content, walletId);
      var k :| 0 <= k < |Lines(r)| && Text.StartsWith(Lines(r)[k], Assignment);
      AssignmentMentionsKey(r, k);
    }
    StableContentUnchanged(r, walletId);
  }
}
