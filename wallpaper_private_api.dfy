/** The wallpaper picker's private extension API (wallpaper_private_api.cc):
    the window state manager that minimizes a user's other windows while the
    picker is open and restores them afterwards, the mapping from a
    wallpaper's source to the user's wallpaper type, and the list of offline
    wallpapers. */
module WallpaperPrivate {
  import opened Common

  // ---------------------------------------------------------------------
  // getWallpaperType.

  /** wallpaper_private::WallpaperSource, with the generated NONE value. */
  datatype WallpaperSource = SourceNone | SourceOnline | SourceDaily | SourceCustom | SourceOem | SourceThirdParty

  /** The user_manager::User::WallpaperType values the mapping produces. */
  datatype WallpaperType = Online | Daily | Customized | Default | ThirdParty

  /** getWallpaperType: every named source has its own type; anything else
      is treated as an online wallpaper. */
  function GetWallpaperType(source: WallpaperSource): WallpaperType
  {
    match source
    case SourceOnline => Online
    case SourceDaily => Daily
    case SourceCustom => Customized
    case SourceOem => Default
    case SourceThirdParty => ThirdParty
    case SourceNone => Online
  }

  /** The source each type comes from. */
  function SourceOf(t: WallpaperType): (r: WallpaperSource)
    ensures r != SourceNone
  {
    match t
    case Online => SourceOnline
    case Daily => SourceDaily
    case Customized => SourceCustom
    case Default => SourceOem
    case ThirdParty => SourceThirdParty
  }

  /** The mapping loses nothing on the five named sources, reaches every
      type, and sends the unnamed source where the online one goes. */
  lemma WallpaperTypeRoundTrip(source: WallpaperSource, t: WallpaperType)
    ensures source != SourceNone ==> SourceOf(GetWallpaperType(source)) == source
    ensures GetWallpaperType(SourceOf(t)) == t
    ensures GetWallpaperType(SourceNone) == GetWallpaperType(SourceOnline)
  {
  }

  // ---------------------------------------------------------------------
  // WindowStateManager.

  /** An aura::Window, by identity. */
  type Window = nat

  /** The ash window states the manager reads and changes: which windows
      are minimized. */
  class WindowStates {
    var minimized: set<Window>

    constructor(minimized: set<Window>)
      ensures this.minimized == minimized
    {
      this.minimized := minimized;
    }
  }

  class WindowStateManager {
    /** user_id_hash_window_list_map_: the windows minimized for each user. */
    var userWindows: map<string, set<Window>>
    /** The windows this manager is registered on as an observer. */
    var observing: set<Window>
    const states: WindowStates

    /** Every window recorded for a user is observed, so that its
        destruction or restacking reaches the manager. */
    predicate Valid()
      reads this
    {
      forall user, w :: user in userWindows && w in userWindows[user] ==> w in observing
    }

    constructor(states: WindowStates)
      ensures Valid() && userWindows == map[] && observing == {} && this.states == states
    {
      userWindows, observing := map[], {};
      this.states := states;
    }

    /** BuildWindowListAndMinimizeInactiveForUser: every listed window
        other than the active one and those already minimized is recorded
        for the user, observed and minimized; nothing else changes. */
    method BuildWindowListAndMinimizeInactiveForUser(userIdHash: string, activeWindow: Option<Window>,
                                                     windows: seq<Window>)
      requires Valid()
      modifies this`userWindows, this`observing, states
      ensures Valid()
      ensures userWindows.Keys == old(userWindows).Keys + {userIdHash}
      ensures userWindows[userIdHash] ==
                (if userIdHash in old(userWindows) then old(userWindows)[userIdHash] else {})
                + Minimizable(windows, activeWindow, old(states.minimized))
      ensures forall user :: user in old(userWindows) && user != userIdHash ==> userWindows[user] == old(userWindows)[user]
      ensures observing == old(observing) + Minimizable(windows, activeWindow, old(states.minimized))
      ensures states.minimized == old(states.minimized) + Minimizable(windows, activeWindow, old(states.minimized))
    {
      if userIdHash !in userWindows {
        userWindows := userWindows[userIdHash := {}];
      }
      ghost var base := userWindows;
      ghost var start := userWindows[userIdHash];
      ghost var minimized := old(states.minimized);
      assert Minimizable(windows[..0], activeWindow, minimized) == {};
      assert start + Minimizable(windows[..0], activeWindow, minimized) == start;
      assert base[userIdHash := start] == base;
      for i := 0 to |windows|
        invariant Valid()
        invariant userWindows == base[userIdHash := start + Minimizable(windows[..i], activeWindow, minimized)]
        invariant observing == old(observing) + Minimizable(windows[..i], activeWindow, minimized)
        invariant states.minimized == minimized + Minimizable(windows[..i], activeWindow, minimized)
      {
        var w := windows[i];
        assert windows[..i + 1] == windows[..i] + [w];
        MinimizableAppend(windows[..i], w, activeWindow, minimized);
        ghost var done := Minimizable(windows[..i], activeWindow, minimized);
        ghost var next := Minimizable(windows[..i + 1], activeWindow, minimized);
        if activeWindow == Some(w) || w in states.minimized {
          assert next == done;
          continue;
        }
        assert w !in minimized;
        assert next == done + {w};
        ghost var before := userWindows;
        assert before[userIdHash] + {w} == start + next;
        RecordAndMinimize(userIdHash, w);
        assert userWindows == base[userIdHash := start + next];
      }
      assert windows[..|windows|] == windows;
    }

    /** One window of the loop: observed, recorded for the user and
        minimized. */
    method RecordAndMinimize(userIdHash: string, w: Window)
      requires Valid() && userIdHash in userWindows
      modifies this`userWindows, this`observing, states
      ensures Valid()
      ensures userWindows == old(userWindows)[userIdHash := old(userWindows)[userIdHash] + {w}]
      ensures observing == old(observing) + {w}
      ensures states.minimized == old(states.minimized) + {w}
    {
      if w !in observing {
        observing := observing + {w};
      }
      userWindows := userWindows[userIdHash := userWindows[userIdHash] + {w}];
      states.minimized := states.minimized + {w};
    }

    /** RestoreMinimizedWindows: the user's entry is dropped and exactly the
        windows it recorded are unminimized; a window stays observed only if
        another user still records it. A user with no entry changes
        nothing. */
    method RestoreMinimizedWindows(userIdHash: string)
      requires Valid()
      modifies this`userWindows, this`observing, states
      ensures Valid()
      ensures userIdHash !in old(userWindows) ==>
                userWindows == old(userWindows) && observing == old(observing)
                && states.minimized == old(states.minimized)
      ensures userIdHash in old(userWindows) ==>
                userWindows == old(userWindows) - {userIdHash}
                && states.minimized == old(states.minimized) - old(userWindows)[userIdHash]
                && observing == old(observing) - Unreferenced(old(userWindows)[userIdHash], userWindows)
    {
      if userIdHash !in userWindows {
        return;
      }
      var removedWindows := userWindows[userIdHash];
      userWindows := userWindows - {userIdHash};
      ghost var all := removedWindows;
      ghost var done: set<Window> := {};
      while removedWindows != {}
        invariant Valid()
        invariant removedWindows + done == all && removedWindows !! done
        invariant userWindows == old(userWindows) - {userIdHash}
        invariant states.minimized == old(states.minimized) - done
        invariant observing == old(observing) - Unreferenced(done, userWindows)
        decreases removedWindows
      {
        var w :| w in removedWindows;
        states.minimized := states.minimized - {w};
        RemoveObserverIfUnreferenced(w);
        removedWindows := removedWindows - {w};
        done := done + {w};
      }
    }

    /** RemoveObserverIfUnreferenced: the observer leaves the window unless
        some user still records it. */
    method RemoveObserverIfUnreferenced(window: Window)
      requires Valid()
      modifies this`observing
      ensures Valid()
      ensures (exists user :: user in userWindows && window in userWindows[user]) ==> observing == old(observing)
      ensures (forall user :: user in userWindows ==> window !in userWindows[user]) ==>
                observing == old(observing) - {window}
    {
      var users := userWindows.Keys;
      while users != {}
        invariant users <= userWindows.Keys
        invariant forall user :: user in userWindows && user !in users ==> window !in userWindows[user]
        decreases users
      {
        var user :| user in users;
        if window in userWindows[user] {
          return;
        }
        users := users - {user};
      }
      observing := observing - {window};
    }

    /** The erase loop shared by OnWindowDestroyed and
        OnWindowStackingChanged: the window leaves every user's set. */
    method ForgetWindow(window: Window)
      requires Valid()
      modifies this`userWindows
      ensures Valid()
      ensures userWindows.Keys == old(userWindows).Keys
      ensures forall user :: user in userWindows ==> userWindows[user] == old(userWindows)[user] - {window}
    {
      var users := userWindows.Keys;
      while users != {}
        invariant Valid()
        invariant users <= userWindows.Keys && userWindows.Keys == old(userWindows).Keys
        invariant forall user :: user in users ==> userWindows[user] == old(userWindows)[user]
        invariant forall user :: user in userWindows && user !in users ==>
                    userWindows[user] == old(userWindows)[user] - {window}
        decreases users
      {
        var user :| user in users;
        userWindows := userWindows[user := userWindows[user] - {window}];
        users := users - {user};
      }
    }

    /** OnWindowDestroyed: the window leaves every user's set; the
        observation ends with the window itself. */
    method OnWindowDestroyed(window: Window)
      requires Valid()
      modifies this`userWindows
      ensures Valid()
      ensures userWindows.Keys == old(userWindows).Keys
      ensures forall user :: user in userWindows ==> userWindows[user] == old(userWindows)[user] - {window}
    {
      ForgetWindow(window);
    }

    /** OnWindowStackingChanged: a window the user touched while the picker
        was open is forgotten and no longer observed. */
    method OnWindowStackingChanged(window: Window)
      requires Valid()
      modifies this`userWindows, this`observing
      ensures Valid()
      ensures userWindows.Keys == old(userWindows).Keys
      ensures forall user :: user in userWindows ==> userWindows[user] == old(userWindows)[user] - {window}
      ensures observing == old(observing) - {window}
    {
      ForgetWindow(window);
      observing := observing - {window};
    }
  }

  /** The windows of `windows` the loop minimizes: neither the active one
      nor one already minimized when it started. */
  ghost function Minimizable(windows: seq<Window>, activeWindow: Option<Window>, minimized: set<Window>): set<Window>
  {
    set w | w in windows && activeWindow != Some(w) && w !in minimized
  }

  lemma MinimizableAppend(windows: seq<Window>, w: Window, activeWindow: Option<Window>, minimized: set<Window>)
    ensures Minimizable(windows + [w], activeWindow, minimized)
            == Minimizable(windows, activeWindow, minimized)
               + (if activeWindow != Some(w) && w !in minimized then {w} else {})
  {
  }

  /** The windows of `windows` that no user of `userWindows` records. */
  ghost function Unreferenced(windows: set<Window>, userWindows: map<string, set<Window>>): set<Window>
  {
    set w | w in windows && forall user :: user in userWindows ==> w !in userWindows[user]
  }

  /** The global g_window_state_manager and its two entry points. */
  class WallpaperWindows {
    var manager: WindowStateManager?
    const states: WindowStates

    predicate Valid()
      reads this, manager
    {
      manager != null ==> manager.states == states && manager.Valid()
    }

    constructor(states: WindowStates)
      ensures Valid() && manager == null && this.states == states
    {
      manager := null;
      this.states := states;
    }

    /** MinimizeInactiveWindows: creates the manager on first use, then
        minimizes the user's inactive windows. Under mash nothing
        happens. */
    method MinimizeInactiveWindows(userIdHash: string, runningInMash: bool, activeWindow: Option<Window>,
                                   windows: seq<Window>)
      requires Valid()
      modifies this`manager, manager, states
      ensures Valid()
      ensures runningInMash ==> manager == old(manager) && states.minimized == old(states.minimized)
      ensures runningInMash && manager != null ==>
                manager.userWindows == old(manager.userWindows) && manager.observing == old(manager.observing)
      ensures !runningInMash ==>
                var before := old(if manager != null then manager.userWindows else map[]);
                var observed := old(if manager != null then manager.observing else {});
                var added := Minimizable(windows, activeWindow, old(states.minimized));
                && manager != null && (old(manager) != null ==> manager == old(manager))
                && manager.userWindows.Keys == before.Keys + {userIdHash}
                && manager.userWindows[userIdHash] == (if userIdHash in before then before[userIdHash] else {}) + added
                && (forall user :: user in before && user != userIdHash ==> manager.userWindows[user] == before[user])
                && manager.observing == observed + added
                && states.minimized == old(states.minimized) + added
    {
      if runningInMash {
        return;
      }
      if manager == null {
        manager := new WindowStateManager(states);
      }
      manager.BuildWindowListAndMinimizeInactiveForUser(userIdHash, activeWindow, windows);
    }

    /** RestoreWindows: restores the user's windows and deletes the manager
        once no user has windows recorded. Without a manager (or under
        mash) nothing happens. */
    method RestoreWindows(userIdHash: string, runningInMash: bool)
      requires Valid()
      modifies this`manager, manager, states
      ensures Valid()
      ensures runningInMash || old(manager) == null ==>
                manager == old(manager) && states.minimized == old(states.minimized)
      ensures runningInMash && manager != null ==>
                manager.userWindows == old(manager.userWindows) && manager.observing == old(manager.observing)
      ensures !runningInMash && old(manager) != null ==>
                (manager == null <==> old(manager.userWindows).Keys - {userIdHash} == {})
                && (manager != null ==> manager == old(manager) && manager.userWindows == old(manager.userWindows) - {userIdHash})
                && states.minimized
                   == old(states.minimized)
                      - (if userIdHash in old(manager.userWindows) then old(manager.userWindows)[userIdHash] else {})
      ensures !runningInMash && old(manager) != null && manager != null ==>
                manager.observing
                == if userIdHash in old(manager.userWindows)
                   then old(manager.observing) - Unreferenced(old(manager.userWindows)[userIdHash], manager.userWindows)
                   else old(manager.observing)
    {
      if runningInMash || manager == null {
        return;
      }
      manager.RestoreMinimizedWindows(userIdHash);
      if manager.userWindows == map[] {
        manager := null;
      } else {
        assert manager.userWindows.Keys != {};
      }
    }
  }

  // ---------------------------------------------------------------------
  // GetOfflineWallpaperList.

  /** FilePath::RemoveExtension on a base name: the name up to its last
      '.', or the whole name when it has none. */
  function RemoveExtension(name: string): (r: string)
    ensures |r| <= |name| && r == name[..|r|]
    ensures '.' !in name ==> r == name
  {
    if name == [] then []
    else if name[|name| - 1] == '.' then name[..|name| - 1]
    else if '.' in name[..|name| - 1] then RemoveExtension(name[..|name| - 1])
    else name
  }

  predicate EndsWith(s: string, suffix: string)
  {
    |suffix| <= |s| && s[|s| - |suffix|..] == suffix
  }

  /** Whether a base name belongs in the offline list: its name without the
      extension must not end with the small-resolution suffix. */
  predicate IsListed(name: string, smallWallpaperSuffix: string)
  {
    !EndsWith(RemoveExtension(name), smallWallpaperSuffix)
  }

  /** The offline list, in enumeration order. */
  function OfflineList(names: seq<string>, smallWallpaperSuffix: string): (r: seq<string>)
    ensures |r| <= |names|
  {
    if names == [] then []
    else
      var front := OfflineList(names[..|names| - 1], smallWallpaperSuffix);
      if IsListed(names[|names| - 1], smallWallpaperSuffix) then front + [names[|names| - 1]] else front
  }

  /** A name is listed exactly when it was enumerated and is not a small
      wallpaper. */
  lemma {:induction false} OfflineListMembers(names: seq<string>, smallWallpaperSuffix: string, name: string)
    ensures name in OfflineList(names, smallWallpaperSuffix) <==> name in names && IsListed(name, smallWallpaperSuffix)
  {
    if names != [] {
      var front := names[..|names| - 1];
      OfflineListMembers(front, smallWallpaperSuffix, name);
      assert names == front + [names[|names| - 1]];
    }
  }

  /** A small wallpaper "<base><suffix>.<ext>" is left out, and its full
      resolution twin "<base>.<ext>" is listed, when the base, the suffix
      and the extension contain no dot and the base does not end with the
      suffix. */
  lemma SmallWallpaperLeftOut(base: string, suffix: string, ext: string)
    requires '.' !in base && '.' !in suffix && '.' !in ext && |base| > 0
    requires !EndsWith(base, suffix)
    ensures !IsListed(base + suffix + "." + ext, suffix)
    ensures IsListed(base + "." + ext, suffix)
  {
    DropExtension(base + suffix, ext);
    DropExtension(base, ext);
    assert (base + suffix)[|base + suffix| - |suffix|..] == suffix;
  }

  lemma {:induction false} DropExtension(stem: string, ext: string)
    requires '.' !in stem && '.' !in ext && |stem| > 0
    ensures RemoveExtension(stem + "." + ext) == stem
    decreases |ext|
  {
    var name := stem + "." + ext;
    if ext == [] {
      assert name[..|name| - 1] == stem;
    } else {
      assert name[..|name| - 1] == stem + "." + ext[..|ext| - 1];
      DropExtension(stem, ext[..|ext| - 1]);
      assert name[|name| - 1] == ext[|ext| - 1];
    }
  }

  /** GetList: the enumerated base names, filtered; a missing wallpaper
      directory gives an empty list. */
  method GetList(directoryExists: bool, names: seq<string>, smallWallpaperSuffix: string) returns (fileList: seq<string>)
    ensures !directoryExists ==> fileList == []
    ensures directoryExists ==> fileList == OfflineList(names, smallWallpaperSuffix)
  {
    fileList := [];
    if !directoryExists {
      return;
    }
    for i := 0 to |names|
      invariant fileList == OfflineList(names[..i], smallWallpaperSuffix)
    {
      assert names[..i + 1][..i] == names[..i];
      var fileName := RemoveExtension(names[i]);
      if !EndsWith(fileName, smallWallpaperSuffix) {
        fileList := fileList + [names[i]];
      }
    }
    assert names[..|names|] == names;
  }
}
