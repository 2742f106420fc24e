/**
 * The message line under the map. Messages logged during a frame are kept in
 * order; updating the log shows them all in the label, with each run of
 * consecutive equal messages collapsed into one message and a repeat count.
 */
module Logger {

  /** A run of `count` consecutive copies of `message`. */
  datatype Run<T> = Run(message: T, count: nat)

  /** The runs after one more message: it extends the last run if it repeats its message, and opens a new run otherwise. */
  function Step<T(==)>(rs: seq<Run<T>>, m: T): (r: seq<Run<T>>)
    ensures r != [] && r[|r| - 1].message == m && |r| <= |rs| + 1
  {
    if rs != [] && rs[|rs| - 1].message == m then rs[..|rs| - 1] + [Run(m, rs[|rs| - 1].count + 1)]
    else rs + [Run(m, 1)]
  }

  /**
   * The runs of `msgs`, built from the left as the log update does, one
   * message at a time.
   */
  function Runs<T(==)>(msgs: seq<T>): (rs: seq<Run<T>>)
  {
    if msgs == [] then [] else Step(Runs(msgs[..|msgs| - 1]), msgs[|msgs| - 1])
  }

  /** `n` copies of `m`. */
  function Rep<T>(m: T, n: nat): seq<T> {
    if n == 0 then [] else Rep(m, n - 1) + [m]
  }

  /** The messages a list of runs stands for. */
  function Expand<T>(rs: seq<Run<T>>): seq<T> {
    if rs == [] then [] else Expand(rs[..|rs| - 1]) + Rep(rs[|rs| - 1].message, rs[|rs| - 1].count)
  }

  /** Expanding runs with one more run at the end appends that run's copies. */
  lemma {:induction false} ExpandSnoc<T>(rs: seq<Run<T>>, r: Run<T>)
    ensures Expand(rs + [r]) == Expand(rs) + Rep(r.message, r.count)
  {
    assert (rs + [r])[..|rs|] == rs;
  }

  /** A step spells out one more message. */
  lemma {:induction false} ExpandStep<T>(rs: seq<Run<T>>, m: T)
    ensures Expand(Step(rs, m)) == Expand(rs) + [m]
  {
    if rs != [] && rs[|rs| - 1].message == m {
      var front, c := rs[..|rs| - 1], rs[|rs| - 1].count;
      assert rs == front + [Run(m, c)];
      ExpandSnoc(front, Run(m, c));
      ExpandSnoc(front, Run(m, c + 1));
    } else {
      ExpandSnoc(rs, Run(m, 1));
      assert Rep(m, 1) == [m];
    }
  }

  /** No message is lost, added or reordered: the runs spell out the log exactly. */
  lemma {:induction false} RunsExpand<T>(msgs: seq<T>)
    ensures Expand(Runs(msgs)) == msgs
  {
    if msgs != [] {
      var prefix := msgs[..|msgs| - 1];
      RunsExpand(prefix);
      ExpandStep(Runs(prefix), msgs[|msgs| - 1]);
      assert prefix + [msgs[|msgs| - 1]] == msgs;
    }
  }

  /** Runs with no empty run and no two equal neighbours. */
  predicate Maximal<T(==)>(rs: seq<Run<T>>) {
    && (forall i | 0 <= i < |rs| :: rs[i].count >= 1)
    && (forall i, j | 0 <= i && j == i + 1 < |rs| :: rs[i].message != rs[j].message)
  }

  /** A step keeps the runs maximal. */
  lemma {:induction false} StepMaximal<T>(rs: seq<Run<T>>, m: T)
    requires Maximal(rs)
    ensures Maximal(Step(rs, m))
  {
  }

  /** No run is empty and neighbouring runs carry different messages. */
  lemma {:induction false} RunsMaximal<T>(msgs: seq<T>)
    ensures Maximal(Runs(msgs))
  {
    if msgs != [] {
      RunsMaximal(msgs[..|msgs| - 1]);
      StepMaximal(Runs(msgs[..|msgs| - 1]), msgs[|msgs| - 1]);
    }
  }

  /** The runs with one copy fewer of the last message (the last run dropped if it had one copy). */
  function Unstep<T>(rs: seq<Run<T>>): seq<Run<T>>
    requires rs != [] && rs[|rs| - 1].count >= 1
  {
    var last := rs[|rs| - 1];
    if last.count == 1 then rs[..|rs| - 1] else rs[..|rs| - 1] + [Run(last.message, last.count - 1)]
  }

  /** Taking one copy off the last run keeps the runs maximal. */
  lemma {:induction false} UnstepMaximal<T>(rs: seq<Run<T>>)
    requires Maximal(rs) && rs != []
    ensures Maximal(Unstep(rs))
  {
    var init, m, c := rs[..|rs| - 1], rs[|rs| - 1].message, rs[|rs| - 1].count;
    assert forall i | 0 <= i < |init| :: init[i] == rs[i];
    if c != 1 {
      var shorter := init + [Run(m, c - 1)];
      assert forall i | 0 <= i < |init| :: shorter[i] == rs[i];
    }
  }

  /** Maximal runs are one step past their unstepped form. */
  lemma {:induction false} UnstepStep<T>(rs: seq<Run<T>>)
    requires Maximal(rs) && rs != []
    ensures Step(Unstep(rs), rs[|rs| - 1].message) == rs
  {
    var init, m, c := rs[..|rs| - 1], rs[|rs| - 1].message, rs[|rs| - 1].count;
    assert rs == init + [Run(m, c)];
    if c == 1 {
      assert init != [] ==> rs[|init| - 1] == init[|init| - 1];
    } else {
      var shorter := init + [Run(m, c - 1)];
      assert shorter[..|shorter| - 1] == init;
    }
  }

  /** Unstepping spells out every message but the last. */
  lemma {:induction false} UnstepExpand<T>(rs: seq<Run<T>>)
    requires rs != [] && rs[|rs| - 1].count >= 1
    ensures Expand(Unstep(rs)) + [rs[|rs| - 1].message] == Expand(rs)
  {
    var init, m, c := rs[..|rs| - 1], rs[|rs| - 1].message, rs[|rs| - 1].count;
    assert rs == init + [Run(m, c)];
    ExpandSnoc(init, Run(m, c));
    assert Rep(m, c) == Rep(m, c - 1) + [m];
    if c != 1 {
      ExpandSnoc(init, Run(m, c - 1));
    }
  }

  /**
   * The grouping is the only maximal one that spells out the log: equal
   * messages are merged exactly when they are adjacent.
   */
  lemma {:induction false} RunsUnique<T>(msgs: seq<T>, rs: seq<Run<T>>)
    requires Maximal(rs) && Expand(rs) == msgs
    ensures rs == Runs(msgs)
    decreases |msgs|
  {
    if rs != [] {
      UnstepMaximal(rs);
      UnstepStep(rs);
      UnstepExpand(rs);
      var prefix := Expand(Unstep(rs));
      var m := rs[|rs| - 1].message;
      assert msgs[..|msgs| - 1] == prefix && msgs[|msgs| - 1] == m;
      RunsUnique(prefix, Unstep(rs));
    }
  }

  /** The number a string of decimal digits denotes, most significant digit first. */
  function DigitsValue(s: string): int {
    if s == [] then 0 else DigitsValue(s[..|s| - 1]) * 10 + (s[|s| - 1] as int - '0' as int)
  }

  /** The decimal digits of `n`, as `str` writes them: they denote `n` and have no leading zero. */
  function NatToString(n: nat): (s: string)
    ensures |s| >= 1 && forall i | 0 <= i < |s| :: '0' <= s[i] <= '9'
    ensures DigitsValue(s) == n
    ensures s[0] == '0' ==> s == "0"
  {
    var d := ('0' as int + n % 10) as char;
    if n < 10 then [d] else NatToString(n / 10) + [d]
  }

  /** How a run is shown: the message alone, or with " (xN)" when it repeats N > 1 times. */
  function Part(r: Run<string>): string {
    if r.count > 1 then r.message + " (x" + NatToString(r.count) + ")" else r.message
  }

  function Parts(rs: seq<Run<string>>): (ps: seq<string>)
    ensures |ps| == |rs| && forall i | 0 <= i < |rs| :: ps[i] == Part(rs[i])
  {
    if rs == [] then [] else Parts(rs[..|rs| - 1]) + [Part(rs[|rs| - 1])]
  }

  /** The parts joined by single spaces. */
  function Join(parts: seq<string>): string {
    if parts == [] then ""
    else if |parts| == 1 then parts[0]
    else Join(parts[..|parts| - 1]) + " " + parts[|parts| - 1]
  }

  /** The label text for a non-empty log. */
  function Label(msgs: seq<string>): string {
    Join(Parts(Runs(msgs)))
  }

  /**
   * Walks the messages once, counting each run of equal neighbours, and joins
   * the shown runs with single spaces.
   */
  method RenderLabel(msgs: seq<string>) returns (text: string)
    requires msgs != []
    ensures text == Label(msgs)
  {
    var parts: seq<string> := [];
    ghost var done: seq<Run<string>> := [];
    var lastMessage := msgs[0];
    var dupeCount := 1;
    assert msgs[..1] == [msgs[0]];
    var i := 1;
    while i < |msgs|
      invariant 1 <= i <= |msgs| && dupeCount >= 1
      invariant Runs(msgs[..i]) == done + [Run(lastMessage, dupeCount)]
      invariant parts == Parts(done)
    {
      var m := msgs[i];
      assert msgs[..i + 1][..i] == msgs[..i];
      if m == lastMessage {
        dupeCount := dupeCount + 1;
      } else {
        parts := parts + [Part(Run(lastMessage, dupeCount))];
        assert (done + [Run(lastMessage, dupeCount)])[..|done| + 1] == done + [Run(lastMessage, dupeCount)];
        done := done + [Run(lastMessage, dupeCount)];
        dupeCount := 1;
        lastMessage := m;
      }
      i := i + 1;
    }
    assert msgs[..i] == msgs;
    parts := parts + [Part(Run(lastMessage, dupeCount))];
    assert (done + [Run(lastMessage, dupeCount)])[..|done|] == done;
    text := Join(parts);
  }

  /** The log: the label's current text and the messages logged since the last update. */
  class Logger {
    var labelText: string
    var logMessages: seq<string>

    constructor (labelText: string)
      ensures this.labelText == labelText && logMessages == []
    {
      this.labelText := labelText;
      logMessages := [];
    }

    /** Adds a message at the end of the pending list. */
    method Log(text: string)
      modifies this`logMessages
      ensures logMessages == old(logMessages) + [text]
    {
      logMessages := logMessages + [text];
    }

    /**
     * Shows the pending messages, grouped into runs, and empties the list. With
     * nothing pending the label keeps its text.
     */
    method UpdateLog()
      modifies this
      ensures logMessages == []
      ensures old(logMessages) == [] ==> labelText == old(labelText)
      ensures old(logMessages) != [] ==> labelText == Label(old(logMessages))
    {
      if logMessages == [] {
        return;
      }
      labelText := RenderLabel(logMessages);
      logMessages := [];
    }

    /** Logs a single blank and updates, which blanks the run of messages on show. */
    method Clear()
      modifies this
      ensures logMessages == []
      ensures labelText == Label(old(logMessages) + [" "])
    {
      Log(" ");
      UpdateLog();
    }
  }

  /** A repeated message is shown once, with its count. */
  lemma {:induction false} LabelRepeated()
    ensures Label(["rock", "rock", "rock"]) == "rock (x3)"
  {
    var r := "rock";
    assert Runs([r, r, r]) == [Run(r, 3)] by {
      assert [r, r, r][..2] == [r, r] && [r, r][..1] == [r] && [r][..0] == [];
      assert Runs([r]) == [Run(r, 1)];
      assert Runs([r, r]) == [Run(r, 2)];
    }
    assert Part(Run(r, 3)) == r + " (x3)" by {
      assert NatToString(3) == "3";
    }
    assert Parts([Run(r, 3)]) == [r + " (x3)"] by {
      assert [Run(r, 3)][..0] == [];
    }
  }

  /** A message that comes back after another one is shown again, not merged. */
  lemma {:induction false} LabelInterrupted()
    ensures Label(["a", "b", "a"]) == "a b a"
  {
    var a, b := "a", "b";
    assert [a, b, a][..2] == [a, b] && [a, b][..1] == [a] && [a][..0] == [];
    assert Runs([a]) == [Run(a, 1)];
    assert Runs([a, b]) == [Run(a, 1), Run(b, 1)];
    assert Runs([a, b, a]) == [Run(a, 1), Run(b, 1), Run(a, 1)];
    assert Parts([Run(a, 1), Run(b, 1), Run(a, 1)]) == [a, b, a];
    assert [a, b, a][..2] == [a, b];
    assert Join([a, b]) == a + " " + b;
  }
}
