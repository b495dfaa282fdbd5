/** The statement runner of database/setup.js: the SQL script is cut into statements, and each
    is sent to the server in turn, counting the ones that ran and the ones skipped. */
module SetupSql {
  import opened Text
  import opened Lists

  /** A trimmed piece that is kept as a statement: non-empty and not starting with `--`. */
  predicate KeptPiece(piece: string) {
    |piece| > 0 && !StartsWith(piece, "--")
  }

  /** Splitting a text without a separator gives the text itself. */
  lemma {:induction false} SplitWithoutSeparator(s: string, sep: char)
    requires sep !in s
    ensures Split(s, sep) == [s]
  {
    if s != [] {
      assert s[0] != sep && sep !in s[1..];
      SplitWithoutSeparator(s[1..], sep);
      assert [s[0]] + s[1..] == s;
    }
  }

  /** A piece of the script, trimmed, holds no `;` and no whitespace at either end. */
  lemma TrimmedPiece(piece: string)
    requires ';' !in piece
    ensures ';' !in Trim(piece)
    ensures Trim(Trim(piece)) == Trim(piece)
  {
    var r := Trim(piece);
    var k := TrimOffset(piece);
    forall i | 0 <= i < |r| ensures r[i] != ';' {
      assert r[i] == piece[k + i];
    }
    TrimNoEdges(r);
  }

  /** The statement list: the script split on `;`, each piece trimmed, keeping the non-empty
      pieces that do not start with `--`. Every statement is such a trimmed piece. */
  function Statements(sql: string): (r: seq<string>)
    ensures forall i :: 0 <= i < |r| ==> KeptPiece(r[i]) && ';' !in r[i] && Trim(r[i]) == r[i]
  {
    var pieces := Split(sql, ';');
    var trimmed := Map(pieces, Trim);
    forall i | 0 <= i < |trimmed| ensures ';' !in trimmed[i] && Trim(trimmed[i]) == trimmed[i] {
      TrimmedPiece(pieces[i]);
    }
    var r := Filter(trimmed, KeptPiece);
    FilterMembers(trimmed, KeptPiece);
    forall i | 0 <= i < |r| ensures ';' !in r[i] && Trim(r[i]) == r[i] {
      assert r[i] in trimmed;
      var k :| 0 <= k < |trimmed| && trimmed[k] == r[i];
    }
    r
  }

  /** A script without `;` is one piece: one statement when its trimmed text is kept, none
      otherwise. */
  lemma StatementsOfPiece(piece: string)
    requires ';' !in piece
    ensures Statements(piece) == if KeptPiece(Trim(piece)) then [Trim(piece)] else []
  {
    SplitWithoutSeparator(piece, ';');
    assert Map([piece], Trim) == [Trim(piece)];
    assert Filter([Trim(piece)], KeptPiece) == (if KeptPiece(Trim(piece)) then [Trim(piece)] else []) + Filter([], KeptPiece);
  }

  /** A `;` splits the script in two whose statements follow each other: what comes before the
      first `;` yields its statements first, then the rest yields its own. */
  lemma StatementsOfJoin(first: string, rest: string)
    requires ';' !in first
    ensures Statements(first + ";" + rest) == Statements(first) + Statements(rest)
  {
    SplitWithoutSeparator(first, ';');
    SplitAtSeparator(first, rest, ';');
    assert first + ";" + rest == first + [';'] + rest;
    var pieces := Split(rest, ';');
    MapConcat([first], pieces, Trim);
    FilterConcat(Map([first], Trim), Map(pieces, Trim), KeptPiece);
  }

  /** A piece whose text, once trimmed, starts with a comment line is dropped whole, together
      with the statement that follows the comment inside it. */
  lemma CommentLedPieceDropped(comment: string, statement: string)
    requires ';' !in comment && ';' !in statement
    ensures Statements("--" + comment + "\n" + statement) == []
  {
    var s := "--" + comment + "\n" + statement;
    assert ';' !in s by {
      forall i | 0 <= i < |s| ensures s[i] != ';' {
        if i < 2 + |comment| + 1 {
          if i >= 2 && i < 2 + |comment| { assert s[i] == comment[i - 2]; }
        } else {
          assert s[i] == statement[i - |comment| - 3];
        }
      }
    }
    SplitWithoutSeparator(s, ';');
    assert s[0] == '-' && s[1] == '-';
    assert DropWhitespace(s) == s;
    var t := Trim(s);
    assert t == TrimEnd(s);
    TrimEndDropsWhitespace(s);
    assert |t| >= 2;
    assert t[..2] == s[..2] == "--";
    assert !KeptPiece(t);
    assert Map([s], Trim) == [t];
  }

  /** `statement.toLowerCase()` contains `delimiter` or `//`: the statement is not sent. */
  predicate Skipped(statement: string) {
    Contains(ToLower(statement), "delimiter") || Contains(ToLower(statement), "//")
  }

  /** A statement that is sent to the server. */
  predicate Executable(statement: string) {
    !Skipped(statement)
  }

  /** What `connection.execute` does with a statement: it runs, or it throws an error carrying a
      code and a message. */
  datatype ExecResult = Executed | Failed(code: string, message: string)

  /** The errors counted as skips: the table or key exists already. */
  predicate AlreadyExists(code: string, message: string) {
    code == "ER_TABLE_EXISTS_ERROR" || code == "ER_DUP_KEYNAME" || Contains(message, "already exists")
  }

  datatype Counts = Counts(success: nat, skip: nat)

  /** A statement the tally counts as skipped: one that is not sent, or one the server refuses
      because what it creates exists already. */
  predicate CountsAsSkip(statement: string, answer: ExecResult) {
    Skipped(statement) || (answer.Failed? && AlreadyExists(answer.code, answer.message))
  }

  /** One statement's effect on the two tallies: a skipped statement adds a skip; a sent one adds
      a success when it runs, a skip when it fails because something already exists, and
      nothing for any other failure. */
  function Count(c: Counts, statement: string, answer: ExecResult): (r: Counts)
    ensures r.success + r.skip <= c.success + c.skip + 1
    ensures r.success >= c.success && r.skip >= c.skip
    ensures r.success > c.success <==> Executable(statement) && answer.Executed?
    ensures r.skip > c.skip <==> CountsAsSkip(statement, answer)
    ensures r.success <= c.success + 1 && r.skip <= c.skip + 1
  {
    if Skipped(statement) then c.(skip := c.skip + 1)
    else match answer
      case Executed => c.(success := c.success + 1)
      case Failed(code, message) =>
        if AlreadyExists(code, message) then c.(skip := c.skip + 1) else c
  }

  /** The tallies after the first `n` statements; the server's answer to statement `i` is
      `respond(i)`. */
  function Tally(statements: seq<string>, respond: nat -> ExecResult, n: nat): (t: Counts)
    requires n <= |statements|
    ensures t.success + t.skip <= n
    ensures n > 0 ==>
              var before := Tally(statements, respond, n - 1);
              (t.skip == before.skip + 1 <==> CountsAsSkip(statements[n - 1], respond(n - 1))) &&
              (t.success == before.success + 1 <==>
                 Executable(statements[n - 1]) && respond(n - 1).Executed?)
  {
    if n == 0 then Counts(0, 0)
    else Count(Tally(statements, respond, n - 1), statements[n - 1], respond(n - 1))
  }

  /** When every statement is sent and runs, every one of them is a success. */
  lemma {:induction false} AllRunAllSucceed(statements: seq<string>, respond: nat -> ExecResult, n: nat)
    requires n <= |statements|
    requires forall i :: 0 <= i < n ==> Executable(statements[i]) && respond(i).Executed?
    ensures Tally(statements, respond, n) == Counts(n, 0)
  {
    if n > 0 {
      AllRunAllSucceed(statements, respond, n - 1);
    }
  }

  /** When every statement is skipped or refused as already existing, every one of them is a
      skip and none a success. */
  lemma {:induction false} AllExistingAllSkipped(statements: seq<string>, respond: nat -> ExecResult, n: nat)
    requires n <= |statements|
    requires forall i :: 0 <= i < n ==> CountsAsSkip(statements[i], respond(i))
    ensures Tally(statements, respond, n) == Counts(0, n)
  {
    if n > 0 {
      AllExistingAllSkipped(statements, respond, n - 1);
    }
  }

  /** A failure that is neither a skip nor an already-exists error leaves both tallies as they
      were, so the two tallies then fall short of the statement count. */
  lemma OtherFailureUncounted(statements: seq<string>, respond: nat -> ExecResult, k: nat)
    requires k < |statements|
    requires Executable(statements[k])
    requires respond(k).Failed? && !AlreadyExists(respond(k).code, respond(k).message)
    ensures Tally(statements, respond, k + 1) == Tally(statements, respond, k)
    ensures Tally(statements, respond, k + 1).success + Tally(statements, respond, k + 1).skip < k + 1
  {
  }

  /** The statements sent while running the first `n`: those not skipped, in order. */
  function SentAmong(statements: seq<string>, n: nat): (r: seq<string>)
    requires n <= |statements|
    ensures |r| <= n
  {
    if n == 0 then []
    else SentAmong(statements, n - 1) + (if Executable(statements[n - 1]) then [statements[n - 1]] else [])
  }

  /** The statements sent are exactly the statements that are not skipped, in their order. */
  lemma {:induction false} SentAreUnskipped(statements: seq<string>, n: nat)
    requires n <= |statements|
    ensures SentAmong(statements, n) == Filter(statements[..n], Executable)
  {
    if n > 0 {
      SentAreUnskipped(statements, n - 1);
      assert statements[..n] == statements[..n - 1] + [statements[n - 1]];
      FilterSnoc(statements[..n - 1], statements[n - 1], Executable);
    }
  }

  /** One pass of the loop of `executeSQL`: a skipped statement adds a skip and is not sent;
      otherwise it is sent, and the server's answer decides which tally, if any, grows. */
  method RunStatement(statement: string, answer: ExecResult, before: Counts) returns (after: Counts, sent: bool)
    ensures after == Count(before, statement, answer)
    ensures sent == Executable(statement)
  {
    after := before;
    if Skipped(statement) {
      after := after.(skip := after.skip + 1);
      return after, false;
    }
    match answer {
      case Executed =>
        after := after.(success := after.success + 1);
      case Failed(code, message) =>
        if AlreadyExists(code, message) {
          after := after.(skip := after.skip + 1);
        }
    }
    sent := true;
  }

  /** The loop of `executeSQL` over the statement list: each statement in order, at most once;
      the skipped ones are never sent. */
  method RunStatements(statements: seq<string>, respond: nat -> ExecResult) returns (counts: Counts, sent: seq<string>)
    ensures counts == Tally(statements, respond, |statements|)
    ensures sent == SentAmong(statements, |statements|)
  {
    counts := Counts(0, 0);
    sent := [];
    var i := 0;
    while i < |statements|
      invariant i <= |statements|
      invariant counts == Tally(statements, respond, i)
      invariant sent == SentAmong(statements, i)
    {
      var statement := statements[i];
      var wasSent;
      counts, wasSent := RunStatement(statement, respond(i), counts);
      if wasSent {
        sent := sent + [statement];
      }
      i := i + 1;
    }
  }

  /** `executeSQL`: the statement list run in order. It answers true once the loop is over,
      whatever the statements did, and the two tallies never exceed the number of statements. */
  method ExecuteSql(sql: string, respond: nat -> ExecResult) returns (ok: bool, counts: Counts, sent: seq<string>)
    ensures ok
    ensures counts == Tally(Statements(sql), respond, |Statements(sql)|)
    ensures counts.success + counts.skip <= |Statements(sql)|
    ensures sent == Filter(Statements(sql), Executable)
  {
    var statements := Statements(sql);
    counts, sent := RunStatements(statements, respond);
    SentAreUnskipped(statements, |statements|);
    assert statements[..|statements|] == statements;
    ok := true;
  }
}
