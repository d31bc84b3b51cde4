/**
 * A workspace: the tab properties, variables and tool properties of a set
 * of editor tabs, stored in a zip archive or a directory, with a small
 * state machine (closed, reading, writing) that guards what may be read.
 * The storage itself is outside the model: what opening or writing
 * produced is an input.
 */
module Workspaces {
  import opened Text
  import opened WorkspaceTabs

  datatype WorkspaceState = Closed | Reading | Writing

  /** Which storage the workspace uses. */
  datatype Persistence = DirectoryStorage | ZipStorage

  /** What the file system says about the workspace's target. */
  datatype FileInfo = FileInfo(present: bool, isDirectory: bool, extension: string)

  /**
   * What opening the storage for reading produced: a failure with its
   * message, or the tab properties, the tool properties and the variables
   * (absent when the variables file could not be read).
   */
  datatype OpenOutcome =
    | OpenFailed(message: Option<string>)
    | Opened(tabInfo: Props, tools: map<string, Props>, variables: Option<Props>)

  /** `isDirectory(WbFile)`: an existing target decides; a new one is a directory without an extension. */
  predicate IsDirectoryTarget(f: FileInfo)
  {
    if f.present then f.isDirectory else IsBlank(f.extension)
  }

  /** The storage `setFilename` picks. */
  function PersistenceFor(allowDirectory: bool, f: FileInfo): (r: Persistence)
    ensures r == DirectoryStorage <==> allowDirectory && IsDirectoryTarget(f)
  {
    if allowDirectory && IsDirectoryTarget(f) then DirectoryStorage else ZipStorage
  }

  class WbWorkspace {
    var state: WorkspaceState
    var tabCount: int
    var tabInfo: Props
    var toolProperties: map<string, Props>
    var variables: Props
    /** The tab indices that hold an editor history, and an execution history. */
    var editorHistories: set<int>
    var executionHistories: set<int>
    var filename: string
    var loadError: Option<string>
    var persistence: Persistence
    var allowDirectoryStorage: bool

    /** `WbWorkspace(archiveName, allowDirectoryWorkspace)`: closed, empty, storage chosen by the target. */
    constructor(archiveName: string, allowDirectory: bool, target: FileInfo)
      ensures state == Closed && tabCount == -1
      ensures tabInfo == map[] && variables == map[] && toolProperties == map[]
      ensures editorHistories == {} && executionHistories == {}
      ensures filename == archiveName && loadError == None
      ensures allowDirectoryStorage == allowDirectory
      ensures persistence == PersistenceFor(allowDirectory, target)
    {
      state := Closed;
      tabCount := -1;
      tabInfo := map[];
      toolProperties := map[];
      variables := map[];
      editorHistories := {};
      executionHistories := {};
      loadError := None;
      allowDirectoryStorage := allowDirectory;
      filename := archiveName;
      persistence := PersistenceFor(allowDirectory, target);
    }

    /**
     * `setFilename`: a missing name is refused (the source throws) and
     * changes nothing; otherwise the name is taken and the storage chosen
     * anew, whatever the state.
     */
    method SetFilename(archiveName: Option<string>, target: FileInfo) returns (refused: bool)
      modifies this
      ensures refused <==> archiveName.None?
      ensures refused ==> filename == old(filename) && persistence == old(persistence)
      ensures !refused ==> filename == archiveName.value
      ensures !refused ==> persistence == PersistenceFor(allowDirectoryStorage, target)
      ensures state == old(state) && tabInfo == old(tabInfo) && variables == old(variables)
      ensures allowDirectoryStorage == old(allowDirectoryStorage)
    {
      if archiveName.None? {
        return true;
      }
      filename := archiveName.value;
      if allowDirectoryStorage && IsDirectoryTarget(target) {
        persistence := DirectoryStorage;
      } else {
        persistence := ZipStorage;
      }
      refused := false;
    }

    /** `close`: always ends closed. */
    method Close()
      modifies this
      ensures state == Closed
      ensures tabInfo == old(tabInfo) && variables == old(variables) && tabCount == old(tabCount)
      ensures editorHistories == old(editorHistories) && executionHistories == old(executionHistories)
    {
      state := Closed;
    }

    /** `clear`: drops what was read or prepared, but not the execution histories. */
    method Clear()
      modifies this
      ensures toolProperties == map[] && variables == map[] && tabInfo == map[] && editorHistories == {}
      ensures state == old(state) && tabCount == old(tabCount)
      ensures executionHistories == old(executionHistories)
    {
      toolProperties := map[];
      variables := map[];
      tabInfo := map[];
      editorHistories := {};
    }

    /**
     * `openForReading`: closes and clears, then either reads everything,
     * counts the tabs and ends in `reading` (true), or records the
     * failure's message and ends closed (false).
     */
    method OpenForReading(outcome: OpenOutcome) returns (ok: bool)
      modifies this
      ensures ok <==> outcome.Opened?
      ensures ok ==> state == Reading && loadError == None
      ensures ok ==> tabCount == TabCount(outcome.tabInfo) && tabInfo == TypedInfo(outcome.tabInfo)
      ensures ok ==> toolProperties == outcome.tools
      ensures ok ==> variables == (if outcome.variables.Some? then outcome.variables.value else map[])
      ensures !ok ==> state == Closed && loadError == outcome.message
      ensures !ok ==> tabInfo == map[] && variables == map[] && tabCount == old(tabCount)
      ensures editorHistories == {} && executionHistories == old(executionHistories)
    {
      Close();
      Clear();
      loadError := None;
      if outcome.OpenFailed? {
        loadError := outcome.message;
        state := Closed;
        return false;
      }
      ReadOpened(outcome.tabInfo, outcome.tools, outcome.variables);
      ok := true;
    }

    /** The reading part of `openForReading`, once the storage is open. */
    method ReadOpened(info: Props, tools: map<string, Props>, vars: Option<Props>)
      modifies this
      ensures state == Reading && loadError == old(loadError)
      ensures tabCount == TabCount(info) && tabInfo == TypedInfo(info)
      ensures toolProperties == tools
      ensures variables == (if vars.Some? then vars.value else map[])
      ensures editorHistories == old(editorHistories) && executionHistories == old(executionHistories)
    {
      toolProperties := tools;
      variables := map[];
      if vars.Some? {
        variables := vars.value;
      }
      state := Reading;
      CountTabs(info);
    }

    /** `readTabInfo` followed by `calculateTabCount`. */
    method CountTabs(info: Props)
      modifies this
      ensures tabCount == TabCount(info) && tabInfo == TypedInfo(info)
      ensures state == old(state) && loadError == old(loadError)
      ensures toolProperties == old(toolProperties) && variables == old(variables)
      ensures editorHistories == old(editorHistories) && executionHistories == old(executionHistories)
    {
      var count, typed := CalculateTabCount(info);
      tabInfo := typed;
      tabCount := count;
    }

    /**
     * `save`: opens for writing (closing first) and writes everything,
     * always ending closed; the histories are dropped only when writing
     * succeeded.
     */
    method Save(written: bool) returns (ok: bool)
      modifies this
      ensures ok == written && state == Closed
      ensures ok ==> editorHistories == {} && executionHistories == {}
      ensures !ok ==> editorHistories == old(editorHistories) && executionHistories == old(executionHistories)
      ensures tabInfo == old(tabInfo) && variables == old(variables)
    {
      Close();
      if written {
        state := Writing;
      }
      Close();
      if !written {
        return false;
      }
      editorHistories := {};
      executionHistories := {};
      ok := true;
    }

    /** `getEntryCount`: the tab count, or -1 unless open for reading. */
    function GetEntryCount(): (r: int)
      reads this
      ensures state != Reading ==> r == -1
      ensures state == Reading ==> r == tabCount
    {
      if state != Reading then -1 else tabCount
    }

    /**
     * `readEditorHistory` / `readSQLExecutionHistory`: allowed only while
     * open for reading (the source throws `IllegalStateException`
     * otherwise); the read itself is the storage's.
     */
    method ReadHistory(index: int) returns (allowed: bool)
      ensures allowed <==> state == Reading
    {
      allowed := state == Reading;
    }

    /** `getVariables`: a copy of the variables. */
    method GetVariables() returns (vars: Props)
      ensures vars == variables
    {
      vars := variables;
    }

    /** `setVariables`: replaces the variables; none given leaves them empty. */
    method SetVariables(newVars: Option<Props>)
      modifies this
      ensures newVars.None? ==> variables == map[]
      ensures newVars.Some? ==> variables == newVars.value
      ensures tabInfo == old(tabInfo) && state == old(state)
    {
      variables := map[];
      if newVars.Some? {
        variables := newVars.value;
      }
    }

    /** `prepareForSaving`. */
    method PrepareForSaving()
      modifies this
      ensures tabInfo == map[] && editorHistories == {}
      ensures variables == old(variables) && executionHistories == old(executionHistories) && state == old(state)
    {
      tabInfo := map[];
      editorHistories := {};
    }

    method AddEditorHistory(index: int)
      modifies this
      ensures editorHistories == old(editorHistories) + {index}
      ensures executionHistories == old(executionHistories) && state == old(state)
    {
      editorHistories := editorHistories + {index};
    }

    method AddExecutionHistory(index: int)
      modifies this
      ensures executionHistories == old(executionHistories) + {index}
      ensures editorHistories == old(editorHistories) && state == old(state)
    {
      executionHistories := executionHistories + {index};
    }

    /** `setEntryCount`: stores the total that `calculateTabCount` prefers. */
    method SetEntryCount(count: int)
      modifies this
      ensures tabInfo == old(tabInfo)[TOTAL_COUNT_KEY := IntToString(count)]
      ensures state == old(state) && variables == old(variables)
    {
      tabInfo := tabInfo[TOTAL_COUNT_KEY := IntToString(count)];
    }

    /** `setMaxRows`, `setQueryTimeout`, `setExternalFileCursorPos`: one number stored for a tab. */
    method SetTabInt(index: int, suffix: string, value: int)
      modifies this
      ensures tabInfo == old(tabInfo)[TabKey(index, suffix) := IntToString(value)]
      ensures state == old(state) && variables == old(variables)
    {
      tabInfo := tabInfo[TabKey(index, suffix) := IntToString(value)];
    }

    /** `setSelectedTab`. */
    method SetSelectedTab(index: int)
      modifies this
      ensures tabInfo == old(tabInfo)[SELECTED_KEY := IntToString(index)]
      ensures state == old(state) && variables == old(variables)
    {
      tabInfo := tabInfo[SELECTED_KEY := IntToString(index)];
    }

    /** `setExternalFileEncoding`: no encoding changes nothing. */
    method SetExternalFileEncoding(index: int, encoding: Option<string>)
      modifies this
      ensures encoding.None? ==> tabInfo == old(tabInfo)
      ensures encoding.Some? ==> tabInfo == old(tabInfo)[TabKey(index, ".encoding") := encoding.value]
      ensures state == old(state) && variables == old(variables)
    {
      if encoding.Some? {
        tabInfo := tabInfo[TabKey(index, ".encoding") := encoding.value];
      }
    }
  }

  /** A workspace saved with its total tab count is counted by that total on opening. */
  lemma OpenThenCount(outcome: OpenOutcome, total: int)
    requires outcome.Opened? && 0 < total <= INT_MAX
    requires TOTAL_COUNT_KEY in outcome.tabInfo && outcome.tabInfo[TOTAL_COUNT_KEY] == IntToString(total)
    ensures TabCount(outcome.tabInfo) == total
  {
    assert outcome.tabInfo == outcome.tabInfo[TOTAL_COUNT_KEY := IntToString(total)];
    StoredTotalWins(outcome.tabInfo, total);
  }
}
