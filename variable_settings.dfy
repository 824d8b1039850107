/**
 * The in-memory map from user id to language code that the translate bot
 * keeps for the life of the process (the module-level `user_settings` dict).
 */
module VariableSettings {
  import opened Opt

  type UserId = string
  type Language = string
  type Settings = map<UserId, Language>

  /** Python's `d.get(key)`: the stored value, or `None` for a key with no entry. */
  function Lookup(m: Settings, userId: UserId): (r: Option<Language>)
    ensures r.Some? <==> userId in m
    ensures r.Some? ==> r.value == m[userId]
  {
    if userId in m then Some(m[userId]) else None
  }

  class SettingsStore {
    var userSettings: Settings

    /** The store starts empty: every `Get` answers `None` until a `Set`. */
    constructor ()
      ensures userSettings == map[]
    {
      userSettings := map[];
    }

    /** `get(user_id)` */
    method Get(userId: UserId) returns (lang: Option<Language>)
      ensures lang.Some? <==> userId in userSettings
      ensures lang.Some? ==> lang.value == userSettings[userId]
    {
      if userId in userSettings {
        lang := Some(userSettings[userId]);
      } else {
        lang := None;
      }
    }

    /** `set(user_id, language)`: overwrites this user's entry and no other. */
    method Set(userId: UserId, language: Language)
      modifies this
      ensures Lookup(userSettings, userId) == Some(language)
      ensures forall u :: u != userId ==> Lookup(userSettings, u) == Lookup(old(userSettings), u)
      ensures userSettings.Keys == old(userSettings).Keys + {userId}
      ensures userSettings == old(userSettings)[userId := language]
    {
      userSettings := userSettings[userId := language];
    }

    /** `clear(user_id)`: removes this user's entry if there is one; no error otherwise. */
    method Clear(userId: UserId)
      modifies this
      ensures Lookup(userSettings, userId) == None
      ensures forall u :: u != userId ==> Lookup(userSettings, u) == Lookup(old(userSettings), u)
      ensures userId !in old(userSettings) ==> userSettings == old(userSettings)
      ensures userSettings == old(userSettings) - {userId}
    {
      if userId in userSettings {
        userSettings := userSettings - {userId};
      }
    }

    /**
     * `get_all()`: a copy of the whole map. A Dafny map is a value, so a
     * caller that builds a new map from the copy cannot change the store.
     */
    method GetAll() returns (all: Settings)
      ensures all.Keys == userSettings.Keys
      ensures forall u :: Lookup(all, u) == Lookup(userSettings, u)
    {
      all := userSettings;
    }
  }

  /**
   * A caller that takes `get_all()` and writes a language into the copy gets
   * the store's map with that one entry changed, while the store itself keeps
   * every entry it had (the method may not modify it).
   */
  method EditCopy(store: SettingsStore, u: UserId, l: Language) returns (copy: Settings)
    ensures Lookup(copy, u) == Some(l)
    ensures forall v :: v != u ==> Lookup(copy, v) == Lookup(store.userSettings, v)
    ensures copy.Keys == store.userSettings.Keys + {u}
  {
    copy := store.GetAll();
    copy := copy[u := l];
  }
}
