/** The fixed identities of the controlled delivery scenario. */
module ControlledScenario {
  import opened JsText
  import opened TaskContracts
  import opened Journal

  function Text(s: string): JsString {
    seq(|s|, i requires 0 <= i < |s| => if s[i] as int < 0x1_0000 then s[i] as int else REPLACEMENT)
  }

  function RunId(): Id { Text("run:issue-268-controlled") }
  function TaskA(): Id { Text("A") }
  function TaskB(): Id { Text("B") }
  function TaskC(): Id { Text("C") }
  function TaskD(): Id { Text("D") }
  function TaskE(): Id { Text("E") }
  function AttemptA1(): Id { Text("attempt:A:1") }
  function AttemptB1(): Id { Text("attempt:B:1") }
  function AttemptC1(): Id { Text("attempt:C:1") }
  function AttemptD1(): Id { Text("attempt:D:1") }
  function BaseSha(): Id { Text("1111111111111111111111111111111111111111") }
  function Executor(): Id { Text("executor:issue-268-controlled") }
  function Target(): Id { Text("fixture:issue-268") }
  function Repository(): Id { Text("/dalph/controlled-characterization/issue-268.git") }
  function TargetRef(): Id { Text("refs/heads/main") }
  function GraphG2(): Id { Text("G2") }
  function ContinueNonce(): Id { Text("issue-268-continue-B1") }

  const CAPACITY_P2: nat := 2

  // The first specification of each task, and the changed one of B.

  function InitialFingerprint(task: Id): Id {
    FingerprintOf(Text("Implement controlled delivery task ") + task + Text("."), Text("Implement ") + task)
  }

  function ChangedTitle(): Id { Text("Implement changed B") }
  function ChangedBody(): Id { Text("Alice changed controlled delivery task B.") }
  function ChangedFingerprint(): Id { FingerprintOf(ChangedBody(), ChangedTitle()) }

  /** The planned first attempt at a task. */
  function FirstAttempt(task: Id, attemptId: Id, branch: Id, worktree: Id): PlannedTaskAttempt {
    PlannedTaskAttempt(attemptId, BaseSha(), branch, Executor(), RunId(), task, InitialFingerprint(task), worktree)
  }

  function A1(): PlannedTaskAttempt {
    FirstAttempt(TaskA(), AttemptA1(), Text("refs/heads/dalph/issue-268-a-1"),
                 Text("/dalph/controlled-characterization/issue-268/A-1"))
  }

  function B1(): PlannedTaskAttempt {
    FirstAttempt(TaskB(), AttemptB1(), Text("refs/heads/dalph/issue-268-b-1"),
                 Text("/dalph/controlled-characterization/issue-268/B-1"))
  }

  function C1(): PlannedTaskAttempt {
    FirstAttempt(TaskC(), AttemptC1(), Text("refs/heads/dalph/issue-268-c-1"),
                 Text("/dalph/controlled-characterization/issue-268/C-1"))
  }

  function D1(): PlannedTaskAttempt {
    FirstAttempt(TaskD(), AttemptD1(), Text("refs/heads/dalph/issue-268-d-1"),
                 Text("/dalph/controlled-characterization/issue-268/D-1"))
  }
}
