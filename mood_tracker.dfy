/** The prompt lifecycle controller: the single prompt window of main.js,
    the configuration file and the mood table it works on, and one method
    per event handler (idle tick, tray items, global shortcut and the IPC
    channels). */
module App {
  import opened Wrappers
  import opened Placement
  import opened ConfigStore
  import opened IdleMonitor
  import opened MoodLog

  class MoodTracker {
    /** Whether the prompt window is shown. */
    var visible: bool
    /** The window's top-left corner. */
    var x: int
    var y: int
    /** The configuration file: `None` when missing or unreadable. */
    var configFile: Option<Config>
    /** The rows of the `moods` table, in insertion order. */
    var log: seq<MoodEntry>

    ghost predicate Valid()
      reads this
    {
      ValidLog(log)
    }

    /** Start-up (`initDatabase` and `createWindow`): the table keeps the
        rows already stored, the window is created hidden at the position
        the loaded configuration names. */
    constructor (file: Option<Config>, stored: seq<MoodEntry>, area: Size)
      requires ValidLog(stored)
      ensures Valid()
      ensures !visible
      ensures Point(x, y) == Place(LoadConfig(file).position, area)
      ensures configFile == file && log == stored
    {
      var p := Place(LoadConfig(file).position, area);
      visible := false;
      x, y := p.x, p.y;
      configFile := file;
      log := stored;
    }

    /** The periodic idle tick: shows a hidden window once the measured
        idle time reaches the configured threshold; a shown window stays
        shown. Position, configuration and table are left alone. */
    method CheckIdleState(idleTime: nat)
      modifies this`visible
      ensures visible == (old(visible) || IsIdle(idleTime, LoadConfig(configFile)))
    {
      var config := LoadConfig(configFile);
      var threshold := IdleThreshold(config.idleMinutes);
      if idleTime >= threshold && !visible {
        visible := true;
      }
    }

    /** Tray menu item "Log Mood". */
    method LogMood()
      modifies this`visible
      ensures visible
    {
      visible := true;
    }

    /** Tray menu item "View History": the window is shown (the renderer is
        also told to switch to its history view). */
    method ViewHistory()
      modifies this`visible
      ensures visible
    {
      visible := true;
    }

    /** Double-click on the tray icon. */
    method TrayDoubleClick()
      modifies this`visible
      ensures visible
    {
      visible := true;
    }

    /** The global keyboard shortcut. */
    method Shortcut()
      modifies this`visible
      ensures visible
    {
      visible := true;
    }

    /** IPC "save-mood": inserts one row stamped `now`, then hides the
        window whether or not the insert failed. The insert fails when the
        mood is null (the column is NOT NULL) or when the store reports an
        error (`storeFails`); a failed insert adds no row. `err` is the
        error the completion callback receives, which it only logs. */
    method SaveMood(mood: Option<string>, energy: Option<int>, note: Option<string>,
                    now: int, storeFails: bool) returns (err: bool)
      requires Valid()
      modifies this`log, this`visible
      ensures Valid()
      ensures err <==> mood.None? || storeFails
      ensures err ==> log == old(log)
      ensures !err ==> log == Inserted(old(log), mood.value, energy, note, now)
      ensures !visible
    {
      err := mood.None? || storeFails;
      if !err {
        log := Inserted(log, mood.value, energy, note, now);
      }
      visible := false;
    }

    /** IPC "dismiss": hides the window and writes nothing. */
    method Dismiss()
      modifies this`visible
      ensures !visible
    {
      visible := false;
    }

    /** IPC "get-config". */
    method GetConfig() returns (c: Config)
      ensures configFile.Some? ==> c == configFile.value
      ensures configFile.None? ==> c == DEFAULT_CONFIG
    {
      c := LoadConfig(configFile);
    }

    /** IPC "save-config": overwrites the configuration file with the
        document supplied and moves the window to the position it names,
        leaving visibility alone. When the write throws (`writeFails`) the
        handler stops before moving the window and nothing changes. */
    method SaveConfig(config: Config, area: Size, writeFails: bool) returns (err: bool)
      modifies this`configFile, this`x, this`y
      ensures err == writeFails
      ensures err ==> configFile == old(configFile) && x == old(x) && y == old(y)
      ensures !err ==> configFile == Some(config) && LoadConfig(configFile) == config
      ensures !err ==> Point(x, y) == Place(config.position, area)
    {
      err := writeFails;
      if !err {
        configFile := Some(config);
        var p := Place(config.position, area);
        x, y := p.x, p.y;
      }
    }

    /** IPC "get-moods": the rows newer than `days` days before `now`
        (thirty when `days` is not given), most recent first. The callback
        ignores a query error and replies with no rows at all (`None`). */
    method GetMoods(now: int, days: Option<int>, queryFails: bool) returns (rows: Option<seq<MoodEntry>>)
      ensures queryFails <==> rows.None?
      ensures rows.Some? ==> SortedDesc(rows.value)
      ensures rows.Some? ==> forall e :: e in rows.value <==> e in log && e.timestamp > Cutoff(now, days)
      ensures rows.Some? ==> forall e ::
        multiset(rows.value)[e] == if e.timestamp > Cutoff(now, days) then multiset(log)[e] else 0
    {
      if queryFails {
        rows := None;
      } else {
        rows := Some(History(log, now, days));
      }
    }
  }

  /** With {position: "top-right", idleMinutes: 1} on a 1000 x 800 work
      area the window starts hidden at (530, 20); a tick at 59 idle seconds
      leaves it hidden, one at 60 shows it there. */
  method TopRightScenario() returns (x: int, y: int, before: bool, after: bool)
    ensures x == 530 && y == 20 && !before && after
  {
    var t := new MoodTracker(Some(Config("top-right", Some(1))), [], Size(1000, 800));
    t.CheckIdleState(59);
    before := t.visible;
    t.CheckIdleState(60);
    after := t.visible;
    x, y := t.x, t.y;
  }

  /** Saving overwrites the whole document, so a "get-config" after a
      successful "save-config" replies with exactly the saved document. */
  method SaveThenGetConfig(t: MoodTracker, config: Config, area: Size) returns (loaded: Config)
    modifies t
    ensures loaded == config
  {
    var err := t.SaveConfig(config, area, false);
    loaded := t.GetConfig();
  }

  /** The idle check is level-triggered: dismissing the prompt while the
      user is still idle lets the very next tick show it again. */
  method RepromptAfterDismiss(t: MoodTracker, idleTime: nat) returns (shownAgain: bool)
    requires IsIdle(idleTime, LoadConfig(t.configFile))
    modifies t
    ensures shownAgain
  {
    t.Dismiss();
    t.CheckIdleState(idleTime);
    shownAgain := t.visible;
  }

  /** A submission hides the prompt even when the insert fails, and a
      failed insert leaves the table as it was. */
  method FailedSaveStillHides(t: MoodTracker, energy: Option<int>, note: Option<string>, now: int)
    returns (hidden: bool, rowsAdded: int)
    requires t.Valid()
    modifies t
    ensures hidden && rowsAdded == 0
  {
    var before := |t.log|;
    var err := t.SaveMood(None, energy, note, now, false);
    hidden := !t.visible;
    rowsAdded := |t.log| - before;
  }
}
