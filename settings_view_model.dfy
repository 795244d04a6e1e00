/** `DrinkSettingsViewModel`: the settings on screen plus the "saved" flag that the
    screen turns into a confirmation message. */
module SettingsViewModel {
  import opened Wrappers
  import opened DrinkSettings

  /** `DrinkSettingsState`. */
  datatype DrinkSettingsState = DrinkSettingsState(settings: DrinkReminderSettings, isSaved: bool)

  class DrinkSettingsViewModel {
    var uiState: DrinkSettingsState
    const repo: DrinkSettingsRepository

    /** The confirmation is shown only while the file holds exactly the settings on
        screen. */
    predicate Valid()
      reads this, repo
    {
      uiState.isSaved ==> ReadSettings(repo.prefs) == Some(uiState.settings)
    }

    /** A fresh view model shows the defaults, not yet saved. */
    constructor(repo: DrinkSettingsRepository)
      ensures this.repo == repo
      ensures uiState == DrinkSettingsState(DefaultSettings, false)
      ensures Valid()
    {
      this.repo := repo;
      uiState := DrinkSettingsState(DefaultSettings, false);
    }

    /** `load`: replace the settings with those read from the file, keeping the
        flag. A failed read (the exception of a bad weekday) changes nothing. */
    method Load() returns (loaded: bool)
      requires Valid()
      modifies this
      ensures loaded == ReadSettings(repo.prefs).Some?
      ensures loaded ==> uiState == old(uiState).(settings := ReadSettings(repo.prefs).value)
      ensures !loaded ==> uiState == old(uiState)
      ensures Valid()
    {
      var settings := repo.LoadSettings();
      loaded := settings.Some?;
      if loaded {
        uiState := uiState.(settings := settings.value);
      }
    }

    /** `updateSettings`: new settings, not saved. */
    method UpdateSettings(newSettings: DrinkReminderSettings)
      modifies this
      ensures uiState == DrinkSettingsState(newSettings, false)
      ensures Valid()
    {
      uiState := uiState.(settings := newSettings, isSaved := false);
    }

    /** `updateField(f)` is `updateSettings(f(current settings))`. */
    method UpdateField(update: DrinkReminderSettings -> DrinkReminderSettings)
      modifies this
      ensures uiState == DrinkSettingsState(update(old(uiState.settings)), false)
      ensures Valid()
    {
      var newSettings := update(uiState.settings);
      UpdateSettings(newSettings);
    }

    /** `save`: write the settings on screen, then raise the flag; the settings on
        screen stay as they are and the file now reads back as them. */
    method Save()
      modifies this, repo
      ensures repo.prefs == WriteSettings(old(repo.prefs), old(uiState.settings))
      ensures uiState == old(uiState).(isSaved := true)
      ensures Valid()
    {
      repo.SaveSettings(uiState.settings);
      uiState := uiState.(isSaved := true);
    }

    /** `clearSavedFlag`: only the flag drops. */
    method ClearSavedFlag()
      modifies this
      ensures uiState == old(uiState).(isSaved := false)
      ensures Valid()
    {
      uiState := uiState.(isSaved := false);
    }
  }
}
