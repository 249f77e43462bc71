/** The settings panel: the Archive Mode checkbox (checked means the raw
    videos are archived, so the working copy is not purged), the two
    folder fields, the rule that enables "Save Settings", and what saving
    and loading write. */
module Settings {
  import opened Wrappers

  /** The three entries of `settings.json` and of the runtime settings;
      a missing key is `None`. */
  datatype Stored = Stored(local: Option<string>, shared: Option<string>, purgeAfter: Option<bool>)

  /** `d.get(key, default)` */
  function Get<T>(o: Option<T>, default: T): T
  {
    if o.Some? then o.value else default
  }

  /** Save is enabled when Archive Mode on has both folders valid and Archive
      Mode off has a valid export folder. */
  function SaveEnabled(archiveOn: bool, validArchive: bool, validExport: bool): (enabled: bool)
    ensures enabled <==> (archiveOn ==> validArchive && validExport) && (!archiveOn ==> validExport)
  {
    if archiveOn then validArchive && validExport else validExport
  }

  /** The export folder is always needed; the archive folder matters only
      in Archive Mode, and turning Archive Mode off never disables saving. */
  lemma SaveRule(archiveOn: bool, validArchive: bool, validExport: bool)
    ensures SaveEnabled(archiveOn, validArchive, validExport) ==> validExport
    ensures !archiveOn ==> SaveEnabled(archiveOn, validArchive, validExport) == SaveEnabled(archiveOn, !validArchive, validExport)
    ensures archiveOn && !validArchive ==> !SaveEnabled(archiveOn, validArchive, validExport)
    ensures SaveEnabled(archiveOn, validArchive, validExport) ==> SaveEnabled(false, validArchive, validExport)
  {
  }

  class SettingsPanel {
    /** `purge_checkbox.isChecked()`: Archive Mode. */
    var checked: bool
    /** `local_folder_entry`, `shared_folder_entry`. */
    var localEntry: string
    var sharedEntry: string
    /** Whether "Save Settings" is enabled. */
    var saveEnabled: bool
    /** The controller's `runtime_settings` for the three keys. */
    var runtime: Stored
    /** `settings.json`, once saved. */
    var saved: Option<Stored>
    /** The merger screen's two folders. */
    var mergerLocal: string
    var mergerShared: string
    /** `os.path.isdir` */
    const isDir: string -> bool

    /** The construction steps that matter: the box starts checked before its
        handler is connected, the fields take the runtime values, and the box
        is then set to the negation of `purge_after`, which runs the toggle
        handler when the state changes. */
    constructor (rt: Stored, isDir: string -> bool, mergerLocal: string, mergerShared: string)
      ensures this.isDir == isDir && saved == None
      ensures checked == !Get(rt.purgeAfter, false)
      ensures sharedEntry == Get(rt.shared, "")
      ensures localEntry == if checked then Get(rt.local, "") else Get(rt.shared, "")
      ensures runtime == if checked then rt else rt.(purgeAfter := Some(true))
      ensures saveEnabled == SaveEnabled(checked, isDir(localEntry), isDir(sharedEntry))
      ensures this.mergerLocal == mergerLocal && this.mergerShared == mergerShared
    {
      this.isDir := isDir;
      checked := true;
      localEntry := Get(rt.local, "");
      sharedEntry := Get(rt.shared, "");
      runtime := rt;
      saved := None;
      this.mergerLocal := mergerLocal;
      this.mergerShared := mergerShared;
      saveEnabled := SaveEnabled(true, isDir(Get(rt.local, "")), isDir(Get(rt.shared, "")));
      new;
      SetChecked(!Get(rt.purgeAfter, false));
      ArchiveEntryChanged();
    }

    /** `setChecked`: the toggle handler runs only when the state changes. */
    method SetChecked(state: bool)
      modifies this
      ensures checked == state
      ensures state == old(checked) ==>
                localEntry == old(localEntry) && runtime == old(runtime) && saveEnabled == old(saveEnabled)
      ensures state != old(checked) ==>
                runtime == old(runtime).(purgeAfter := Some(!state)) &&
                localEntry == (if state then old(localEntry) else old(sharedEntry)) &&
                saveEnabled == SaveEnabled(checked, isDir(localEntry), isDir(sharedEntry))
      ensures sharedEntry == old(sharedEntry) && saved == old(saved)
      ensures mergerLocal == old(mergerLocal) && mergerShared == old(mergerShared)
    {
      if state != checked {
        checked := state;
        OnArchiveModeToggled(state);
      }
    }

    /** `_on_archive_mode_toggled`: `purge_after` is the negation of the box,
        and with Archive Mode off the archive field mirrors the export field. */
    method OnArchiveModeToggled(state: bool)
      modifies this`runtime, this`localEntry, this`saveEnabled
      ensures runtime == old(runtime).(purgeAfter := Some(!state))
      ensures localEntry == if state then old(localEntry) else sharedEntry
      ensures saveEnabled == SaveEnabled(checked, isDir(localEntry), isDir(sharedEntry))
    {
      runtime := runtime.(purgeAfter := Some(!state));
      if !state {
        localEntry := sharedEntry;
      }
      ArchiveEntryChanged();
    }

    /** `archive_entry_changed`: re-derive whether saving is allowed. */
    method ArchiveEntryChanged()
      modifies this`saveEnabled
      ensures saveEnabled == SaveEnabled(checked, isDir(localEntry), isDir(sharedEntry))
    {
      var validArch := isDir(localEntry);
      var validExp := isDir(sharedEntry);
      if checked {
        saveEnabled := validArch && validExp;
      } else {
        saveEnabled := validExp;
      }
    }

    /** Picking a folder in either browse dialog (`setText`, then the
        `textChanged` hook). */
    method SetLocalFolder(path: string)
      modifies this`localEntry, this`saveEnabled
      ensures localEntry == (if path != "" then path else old(localEntry))
      ensures saveEnabled == SaveEnabled(checked, isDir(localEntry), isDir(sharedEntry))
    {
      if path != "" {
        localEntry := path;
      }
      ArchiveEntryChanged();
    }

    method SetSharedFolder(path: string)
      modifies this`sharedEntry, this`saveEnabled
      ensures sharedEntry == (if path != "" then path else old(sharedEntry))
      ensures saveEnabled == SaveEnabled(checked, isDir(localEntry), isDir(sharedEntry))
    {
      if path != "" {
        sharedEntry := path;
      }
      ArchiveEntryChanged();
    }

    /** `save_settings`: `purge_after` is stored as the negation of the box;
        with Archive Mode off both folders become the export folder; the
        runtime settings, the file and the merger get the same values. */
    method SaveSettings()
      modifies this`localEntry, this`runtime, this`saved, this`mergerLocal, this`mergerShared, this`saveEnabled
      ensures var cfg := SavedConfig(checked, old(localEntry), sharedEntry);
              runtime == cfg && saved == Some(cfg) && Some(localEntry) == cfg.local &&
              Some(mergerLocal) == cfg.local && mergerShared == sharedEntry
      ensures saveEnabled == SaveEnabled(checked, isDir(localEntry), isDir(sharedEntry))
    {
      var cfgLocal := localEntry;
      var cfgShared := sharedEntry;
      var cfgPurge := !checked;
      if !checked {
        cfgLocal := cfgShared;
        localEntry := cfgLocal;
      }
      ArchiveEntryChanged();
      var cfg := Stored(Some(cfgLocal), Some(cfgShared), Some(cfgPurge));
      runtime := cfg;
      saved := Some(cfg);
      mergerLocal := cfgLocal;
      mergerShared := cfgShared;
    }

    /** `load_settings`: fill the fields from the file (an unreadable file
        reads as empty) and set the box to `purge_after` itself. */
    method LoadSettings(file: Option<Stored>)
      modifies this
      ensures var cfg := if file.Some? then file.value else Stored(None, None, None);
              checked == Get(cfg.purgeAfter, false) &&
              sharedEntry == Get(cfg.shared, "") &&
              (checked == old(checked) ==> localEntry == Get(cfg.local, "") && runtime == old(runtime))
      ensures checked != old(checked) ==> runtime == old(runtime).(purgeAfter := Some(!checked))
      ensures var cfg := if file.Some? then file.value else Stored(None, None, None);
              checked != old(checked) ==>
                localEntry == if checked then Get(cfg.local, "") else Get(cfg.shared, "")
      ensures saveEnabled == SaveEnabled(checked, isDir(localEntry), isDir(sharedEntry))
      ensures saved == old(saved) && mergerLocal == old(mergerLocal) && mergerShared == old(mergerShared)
    {
      var cfg := if file.Some? then file.value else Stored(None, None, None);
      localEntry := Get(cfg.local, "");
      sharedEntry := Get(cfg.shared, "");
      ArchiveEntryChanged();
      SetChecked(Get(cfg.purgeAfter, false));
    }
  }

  /** The box after construction from stored settings. */
  function CheckedAtStart(s: Stored): bool
  {
    !Get(s.purgeAfter, false)
  }

  /** The box after `load_settings` from the same settings. */
  function CheckedAfterLoad(s: Stored): bool
  {
    Get(s.purgeAfter, false)
  }

  /** What `save_settings` stores for a given box state and fields. */
  function SavedConfig(checked: bool, local: string, shared: string): (cfg: Stored)
    ensures cfg.purgeAfter == Some(!checked)
    ensures !checked ==> cfg.local == cfg.shared == Some(shared)
    ensures checked ==> cfg.local == Some(local) && cfg.shared == Some(shared)
  {
    Stored(Some(if checked then local else shared), Some(shared), Some(!checked))
  }

  /** Saving and starting again restores the box; saving and then
      `load_settings` inverts it. */
  lemma SaveThenRestore(checked: bool, local: string, shared: string)
    ensures CheckedAtStart(SavedConfig(checked, local, shared)) == checked
    ensures CheckedAfterLoad(SavedConfig(checked, local, shared)) == !checked
  {
  }

  /** The two initialisations never agree on the same settings. */
  lemma InitialisationsDisagree(s: Stored)
    ensures CheckedAtStart(s) != CheckedAfterLoad(s)
  {
  }
}
