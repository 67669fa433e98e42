/** The single-query-at-a-time manager in front of a cursor adapter
    (AdapterQueryManager.java), as a sequential event model: the UI thread's
    calls, the background query and the framework's completion callback are
    separate methods that a caller interleaves in any order the framework
    allows. */
module QueryManager {
  import opened JavaLang

  /** A result set. Only whether, and how often, it is closed matters here. */
  class Cursor {
    var closeCount: nat

    constructor ()
      ensures closeCount == 0
    {
      closeCount := 0;
    }

    method Close()
      modifies this
      ensures closeCount == old(closeCount) + 1
    {
      closeCount := closeCount + 1;
    }
  }

  /** The list widget's adapter, seen through the calls made on it: the log
      of every changeCursor argument, null included. */
  class CursorAdapter {
    var changes: seq<Option<Cursor>>

    constructor ()
      ensures changes == []
    {
      changes := [];
    }

    method ChangeCursor(cursor: Option<Cursor>)
      modifies this
      ensures changes == old(changes) + [cursor]
    {
      changes := changes + [cursor];
    }
  }

  /** A Throwable thrown by the content resolver. */
  datatype Failure = Failure(message: string)

  /** What ContentResolver.query did on the background thread. */
  datatype QueryOutcome = Returned(cursor: Option<Cursor>) | Threw(failure: Failure)

  /** The exceptions the manager throws: setAdapter's two, and the
      NullPointerException of a query started before any adapter is set. */
  datatype AdapterError = IllegalState | IllegalArgument | NullPointer

  /** The cursor a completed, uncancelled query puts into the adapter: the
      failed cursor after an exception or a null result, else the result. */
  function Installed(exceptionResult: Option<Failure>, cursorResult: Option<Cursor>, failedCursor: Cursor): Cursor
  {
    if exceptionResult.Some? || cursorResult.None? then failedCursor else cursorResult.value
  }

  /** The failed cursor is installed exactly on an exception or a null result
      (unless the query itself returned the failed cursor object). */
  lemma InstalledIsResultUnlessFailed(exceptionResult: Option<Failure>, cursorResult: Option<Cursor>, failedCursor: Cursor)
    ensures (cursorResult.Some? ==> cursorResult.value != failedCursor) ==>
      (Installed(exceptionResult, cursorResult, failedCursor) == failedCursor
       <==> exceptionResult.Some? || cursorResult.None?)
    ensures exceptionResult.Some? ==> Installed(exceptionResult, cursorResult, failedCursor) == failedCursor
    ensures exceptionResult.None? && cursorResult.None? ==> Installed(exceptionResult, cursorResult, failedCursor) == failedCursor
    ensures exceptionResult.None? && cursorResult.Some? ==> Installed(exceptionResult, cursorResult, failedCursor) == cursorResult.value
  {
  }

  /** One background query (the inner QueryTask). */
  class QueryTask {
    const uri: string
    var cursorResult: Option<Cursor>
    var exceptionResult: Option<Failure>
    var cancelled: bool
    /** doInBackground has returned. */
    var ran: bool
    /** The framework has delivered onPostExecute or onCancelled. */
    var finished: bool

    constructor (uri: string)
      ensures this.uri == uri
      ensures cursorResult == None && exceptionResult == None
      ensures !cancelled && !ran && !finished
    {
      this.uri := uri;
      cursorResult := None;
      exceptionResult := None;
      cancelled := false;
      ran := false;
      finished := false;
    }

    /** cancel(true): only marks the task; a query already under way runs on. */
    method Cancel()
      modifies this
      ensures cancelled
      ensures cursorResult == old(cursorResult) && exceptionResult == old(exceptionResult)
      ensures ran == old(ran) && finished == old(finished)
    {
      cancelled := true;
    }

    /** doInBackground: records the query's cursor, or what it threw. */
    method DoInBackground(outcome: QueryOutcome)
      requires !ran && !finished && cursorResult == None && exceptionResult == None
      modifies this
      ensures ran && finished == old(finished) && cancelled == old(cancelled)
      ensures outcome.Returned? ==> cursorResult == outcome.cursor && exceptionResult == None
      ensures outcome.Threw? ==> cursorResult == None && exceptionResult == Some(outcome.failure)
    {
      match outcome {
        case Returned(c) =>
          cursorResult := c;
        case Threw(e) =>
          exceptionResult := Some(e);
      }
      ran := true;
    }

    /** onCancelled: closes the cursor the query produced, if any. */
    method OnCancelled()
      modifies if cursorResult.Some? then {cursorResult.value} else {}
      ensures cursorResult.Some? ==> cursorResult.value.closeCount == old(cursorResult.value.closeCount) + 1
    {
      if cursorResult.Some? {
        cursorResult.value.Close();
      }
    }
  }

  class AdapterQueryManager {
    var adapter: Option<CursorAdapter>
    const loadingCursor: Cursor
    const failedCursor: Cursor
    var currentQuery: Option<QueryTask>
    /** The arguments of the onSuccessfulQuery hook, in call order. */
    var successfulQueries: seq<Cursor>
    /** Every task this manager has started. */
    ghost var tasks: set<QueryTask>

    /** At most one task is current, every other task has been cancelled,
        and tasks exist only once an adapter is set. */
    ghost predicate Valid()
      reads this, tasks
    {
      && (currentQuery.Some? ==> currentQuery.value in tasks)
      && (forall t :: t in tasks && Some(t) != currentQuery ==> t.cancelled)
      && (tasks != {} ==> adapter.Some?)
      && (forall t :: t in tasks && !t.ran ==> t.cursorResult == None && t.exceptionResult == None)
    }

    constructor (loadingCursor: Cursor, failedCursor: Cursor)
      ensures Valid()
      ensures this.loadingCursor == loadingCursor && this.failedCursor == failedCursor
      ensures adapter == None && currentQuery == None && successfulQueries == [] && tasks == {}
    {
      this.loadingCursor := loadingCursor;
      this.failedCursor := failedCursor;
      adapter := None;
      currentQuery := None;
      successfulQueries := [];
      tasks := {};
    }

    /** setAdapter: succeeds once, with a non-null adapter; otherwise throws
        and leaves the adapter as it was. */
    method SetAdapter(newAdapter: Option<CursorAdapter>) returns (error: Option<AdapterError>)
      requires Valid()
      modifies this
      ensures Valid()
      ensures old(adapter).Some? ==> error == Some(IllegalState) && adapter == old(adapter)
      ensures old(adapter).None? && newAdapter.None? ==> error == Some(IllegalArgument) && adapter == None
      ensures old(adapter).None? && newAdapter.Some? ==> error == None && adapter == newAdapter
      ensures currentQuery == old(currentQuery) && successfulQueries == old(successfulQueries) && tasks == old(tasks)
    {
      if adapter.Some? {
        return Some(IllegalState);
      }
      if newAdapter.None? {
        return Some(IllegalArgument);
      }
      adapter := newAdapter;
      error := None;
    }

    /** resetCursor: clears the adapter, then installs the new cursor. */
    method ResetCursor(newCursor: Cursor)
      requires adapter.Some?
      modifies adapter.value
      ensures adapter.value.changes == old(adapter.value.changes) + [None, Some(newCursor)]
    {
      adapter.value.ChangeCursor(None);
      adapter.value.ChangeCursor(Some(newCursor));
    }

    /** startQuery: shows the loading cursor, cancels the current task and
        starts a new one, which becomes the only current task. Before any
        adapter is set, resetCursor's first call throws NullPointerException
        and nothing has changed. */
    method StartQuery(uri: string) returns (r: Result<QueryTask, AdapterError>)
      requires Valid()
      modifies this, if adapter.Some? then {adapter.value} else {},
        if currentQuery.Some? then {currentQuery.value} else {}
      ensures Valid()
      ensures adapter == old(adapter) && successfulQueries == old(successfulQueries)
      ensures old(adapter).None? ==>
        r == Err(NullPointer) && currentQuery == old(currentQuery) && tasks == old(tasks)
      ensures old(adapter).Some? ==>
        && r.Ok? && fresh(r.value)
        && r.value.uri == uri && !r.value.cancelled && !r.value.ran && !r.value.finished
        && currentQuery == Some(r.value) && tasks == old(tasks) + {r.value}
        && adapter.value.changes == old(adapter.value.changes) + [None, Some(loadingCursor)]
      ensures old(currentQuery).Some? && old(adapter).Some? ==> old(currentQuery).value.cancelled
      ensures forall t :: t in old(tasks) ==>
        t.ran == old(t.ran) && t.finished == old(t.finished)
        && t.cursorResult == old(t.cursorResult) && t.exceptionResult == old(t.exceptionResult)
    {
      if adapter.None? {
        return Err(NullPointer);
      }
      ResetCursor(loadingCursor);
      if currentQuery.Some? {
        currentQuery.value.Cancel();
      }
      var task := new QueryTask(uri);
      currentQuery := Some(task);
      tasks := tasks + {task};
      r := Ok(task);
    }

    /** The framework runs the task's doInBackground. A task cancelled while
        its query was under way still records the query's outcome. */
    method RunInBackground(task: QueryTask, outcome: QueryOutcome)
      requires Valid() && task in tasks && !task.ran && !task.finished
      modifies task
      ensures Valid()
      ensures task.ran && task.finished == old(task.finished) && task.cancelled == old(task.cancelled)
      ensures outcome.Returned? ==> task.cursorResult == outcome.cursor && task.exceptionResult == None
      ensures outcome.Threw? ==> task.cursorResult == None && task.exceptionResult == Some(outcome.failure)
    {
      task.DoInBackground(outcome);
    }

    /** onQueryComplete: a null cursor installs the failed cursor; any other
        is installed and then reported to onSuccessfulQuery. */
    method OnQueryComplete(cursor: Option<Cursor>)
      requires adapter.Some?
      modifies this, adapter.value
      ensures adapter == old(adapter)
      ensures cursor.None? ==>
        adapter.value.changes == old(adapter.value.changes) + [None, Some(failedCursor)]
        && successfulQueries == old(successfulQueries)
      ensures cursor.Some? ==>
        adapter.value.changes == old(adapter.value.changes) + [None, cursor]
        && successfulQueries == old(successfulQueries) + [cursor.value]
      ensures currentQuery == old(currentQuery) && tasks == old(tasks)
    {
      if cursor.None? {
        ResetCursor(failedCursor);
      } else {
        ResetCursor(cursor.value);
        successfulQueries := successfulQueries + [cursor.value];
      }
    }

    /** onException: installs the failed cursor. */
    method OnException(failure: Failure)
      requires adapter.Some?
      modifies adapter.value
      ensures adapter.value.changes == old(adapter.value.changes) + [None, Some(failedCursor)]
    {
      ResetCursor(failedCursor);
    }

    /** QueryTask.onPostExecute: routes the background outcome to
        onException or onQueryComplete. */
    method OnPostExecute(task: QueryTask)
      requires adapter.Some?
      modifies this, adapter.value
      ensures adapter == old(adapter)
      ensures adapter.value.changes
           == old(adapter.value.changes) + [None, Some(Installed(task.exceptionResult, task.cursorResult, failedCursor))]
      ensures successfulQueries
           == old(successfulQueries) + (if task.exceptionResult.None? && task.cursorResult.Some? then [task.cursorResult.value] else [])
      ensures currentQuery == old(currentQuery) && tasks == old(tasks)
    {
      if task.exceptionResult.Some? {
        OnException(task.exceptionResult.value);
      } else {
        OnQueryComplete(task.cursorResult);
      }
    }

    /** The framework finishes a task whose background work is over (or
        never started because it was cancelled first): it calls onCancelled
        if the task was cancelled and onPostExecute otherwise, and never
        finishes a task twice. */
    method Finish(task: QueryTask)
      requires Valid() && task in tasks && !task.finished && (task.ran || task.cancelled)
      modifies this, task, adapter.value,
        if task.cursorResult.Some? then {task.cursorResult.value} else {}
      ensures Valid() && task.finished
      ensures adapter == old(adapter) && currentQuery == old(currentQuery) && tasks == old(tasks)
      ensures task.cancelled == old(task.cancelled) && task.ran == old(task.ran)
      ensures task.cursorResult == old(task.cursorResult) && task.exceptionResult == old(task.exceptionResult)
      // A cancelled task never reaches the adapter and closes its own cursor.
      ensures old(task.cancelled) ==>
        && adapter.value.changes == old(adapter.value.changes)
        && successfulQueries == old(successfulQueries)
        && (task.cursorResult.Some? ==>
              task.cursorResult.value.closeCount == old(task.cursorResult.value.closeCount) + 1)
      // A superseded task is one of those: a late answer is closed and ignored.
      ensures old(currentQuery) != Some(task) ==> adapter.value.changes == old(adapter.value.changes)
      ensures !old(task.cancelled) ==>
        adapter.value.changes
          == old(adapter.value.changes) + [None, Some(Installed(task.exceptionResult, task.cursorResult, failedCursor))]
    // An uncancelled task reports a non-null answer to onSuccessfulQuery and
    // leaves its cursor open for the adapter.
    ensures !old(task.cancelled) ==>
        successfulQueries
          == old(successfulQueries) + (if task.exceptionResult.None? && task.cursorResult.Some? then [task.cursorResult.value] else [])
    ensures !old(task.cancelled) && task.cursorResult.Some? ==>
        task.cursorResult.value.closeCount == old(task.cursorResult.value.closeCount)
    {
      if task.cancelled {
        task.OnCancelled();
      } else {
        OnPostExecute(task);
      }
      task.finished := true;
    }
  }

  /** The start of the manager's test: an adapter is set and two queries
      have been started, the first one superseded by the second. */
  method TwoQueriesStarted() returns (manager: AdapterQueryManager, adapter: CursorAdapter, query1: QueryTask, query2: QueryTask)
    ensures fresh(manager) && fresh(adapter) && fresh(query1) && fresh(query2)
    ensures manager.Valid() && manager.adapter == Some(adapter)
    ensures query1 in manager.tasks && query2 in manager.tasks && manager.currentQuery == Some(query2)
    ensures query1.cancelled && !query1.ran && !query1.finished
    ensures !query2.cancelled && !query2.ran && !query2.finished && query1 != query2
  {
    var loading := new Cursor();
    var failed := new Cursor();
    manager := new AdapterQueryManager(loading, failed);
    adapter := new CursorAdapter();
    var error := manager.SetAdapter(Some(adapter));
    var started1 := manager.StartQuery("content://domain/query?1");
    query1 := started1.value;
    var started2 := manager.StartQuery("content://domain/query?2");
    query2 := started2.value;
  }

  /** The interleaving of the manager's test: the first query is still in
      the provider when the second starts and completes; the first answer
      then arrives. The adapter ends on the second cursor and the first
      cursor is closed exactly once. */
  method CancelledCursorIsClosed() returns (firstCloses: nat, lastShown: Option<Cursor>, secondCursor: Cursor)
    ensures firstCloses == 1
    ensures lastShown == Some(secondCursor)
  {
    var manager, adapter, query1, query2 := TwoQueriesStarted();
    var cursor1 := new Cursor();
    var cursor2 := new Cursor();
    manager.RunInBackground(query2, Returned(Some(cursor2)));
    manager.Finish(query2);
    manager.RunInBackground(query1, Returned(Some(cursor1)));
    manager.Finish(query1);
    firstCloses := cursor1.closeCount;
    lastShown := adapter.changes[|adapter.changes| - 1];
    secondCursor := cursor2;
  }
}
