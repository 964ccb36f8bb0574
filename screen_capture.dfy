/**
  * Window listing and focusing (`ScreenCapture`): the operating system's window
  * enumeration is a sequence of `Window` objects plus a flag saying whether the
  * enumeration call itself raises; each window says whether reading its properties,
  * restoring it or activating it raises.
  */
module ScreenCapture {
  import opened Common
  import PyStr

  /** A top-level window as the window library exposes it. */
  class Window {
    const title: string
    const visible: bool
    const left: int
    const top: int
    const width: int
    const height: int
    const isMaximized: bool
    const inspectRaises: bool   // reading the window's properties raises
    const restoreRaises: bool   // `restore()` raises
    const activateRaises: bool  // `activate()` raises
    var isMinimized: bool
    var isActive: bool

    constructor (title: string, visible: bool, left: int, top: int, width: int, height: int,
                 isMinimized: bool, isMaximized: bool, isActive: bool,
                 inspectRaises: bool, restoreRaises: bool, activateRaises: bool)
      ensures this.title == title && this.visible == visible
      ensures this.left == left && this.top == top && this.width == width && this.height == height
      ensures this.isMinimized == isMinimized && this.isMaximized == isMaximized
      ensures this.isActive == isActive
      ensures this.inspectRaises == inspectRaises && this.restoreRaises == restoreRaises
      ensures this.activateRaises == activateRaises
    {
      this.title := title;
      this.visible := visible;
      this.left := left;
      this.top := top;
      this.width := width;
      this.height := height;
      this.isMinimized := isMinimized;
      this.isMaximized := isMaximized;
      this.isActive := isActive;
      this.inspectRaises := inspectRaises;
      this.restoreRaises := restoreRaises;
      this.activateRaises := activateRaises;
    }
  }

  /** One entry of `get_all_windows()`: `index` is the window's position in the enumeration. */
  datatype WindowInfo = WindowInfo(index: nat, title: string, left: int, top: int,
                                   width: int, height: int, isActive: bool, isMaximized: bool,
                                   window: Window)

  /** A window is listed when it has a non-empty title and is visible. */
  predicate Listable(w: Window) {
    w.title != "" && w.visible
  }

  /** The entry recorded for window `w` found at position `i`. */
  function Entry(i: nat, w: Window): (e: WindowInfo)
    reads w
    ensures e.index == i && e.window == w
    ensures e.title == w.title && e.isActive == w.isActive && e.isMaximized == w.isMaximized
    ensures e.left == w.left && e.top == w.top && e.width == w.width && e.height == w.height
  {
    WindowInfo(i, w.title, w.left, w.top, w.width, w.height, w.isActive, w.isMaximized, w)
  }

  /** The position of the first window whose inspection raises, or `|ws|` when none does. */
  function Stop(ws: seq<Window>): (s: nat)
    ensures s <= |ws|
    ensures forall j | 0 <= j < s :: !ws[j].inspectRaises
    ensures s < |ws| ==> ws[s].inspectRaises
  {
    if ws == [] then 0
    else
      var n := |ws| - 1;
      var s := Stop(ws[..n]);
      if s < n then s else if ws[n].inspectRaises then n else n + 1
  }

  /** The entries collected by the enumeration loop, and whether an inspection raised. */
  datatype Listing = Listing(entries: seq<WindowInfo>, stopped: bool)

  /**
    * The enumeration loop over `ws`: the windows before the first one whose inspection
    * raises are filtered in order, each listable one recorded with its own position.
    */
  function Scan(ws: seq<Window>): (r: Listing)
    reads ws
    ensures r.stopped <==> Stop(ws) < |ws|
    ensures |r.entries| <= Stop(ws)
    ensures forall k | 0 <= k < |r.entries| ::
              && r.entries[k].index < Stop(ws)
              && Listable(ws[r.entries[k].index])
              && r.entries[k] == Entry(r.entries[k].index, ws[r.entries[k].index])
    ensures forall j, k | 0 <= j < k < |r.entries| :: r.entries[j].index < r.entries[k].index
  {
    if ws == [] then Listing([], false)
    else
      var n := |ws| - 1;
      var prev := Scan(ws[..n]);
      if prev.stopped then prev
      else if ws[n].inspectRaises then Listing(prev.entries, true)
      else if Listable(ws[n]) then Listing(prev.entries + [Entry(n, ws[n])], false)
      else prev
  }

  /** Scanning one more window keeps the earlier entries and moves the first raising position no earlier. */
  lemma ScanExtends(ws: seq<Window>)
    requires ws != []
    ensures var n := |ws| - 1;
            var prev := Scan(ws[..n]).entries;
            && |prev| <= |Scan(ws).entries| && Scan(ws).entries[..|prev|] == prev
            && (Stop(ws) <= n ==> Stop(ws[..n]) == Stop(ws))
            && (Stop(ws) > n ==> Stop(ws[..n]) == n)
  {
  }

  /** Every window before the first raising inspection that has a title and is visible is listed. */
  lemma {:induction false} ScanComplete(ws: seq<Window>, i: nat)
    requires i < Stop(ws) && Listable(ws[i])
    ensures exists k | 0 <= k < |Scan(ws).entries| :: Scan(ws).entries[k].index == i
    decreases |ws|
  {
    var n := |ws| - 1;
    var entries := Scan(ws).entries;
    ScanExtends(ws);
    if i < n {
      var prev := Scan(ws[..n]).entries;
      assert ws[..n][i] == ws[i];
      ScanComplete(ws[..n], i);
      var k :| 0 <= k < |prev| && prev[k].index == i;
      assert entries[..|prev|][k] == prev[k];
    } else {
      ScanListsLast(ws);
    }
  }

  /** When no inspection raises and the last window is listable, the last entry is that window's. */
  lemma ScanListsLast(ws: seq<Window>)
    requires ws != [] && Stop(ws) == |ws| && Listable(ws[|ws| - 1])
    ensures var entries := Scan(ws).entries;
            entries != [] && entries[|entries| - 1].index == |ws| - 1
  {
    var n := |ws| - 1;
    assert Stop(ws[..n]) == n;
    assert Scan(ws).entries == Scan(ws[..n]).entries + [Entry(n, ws[n])];
  }

  /** In a list with strictly increasing indices, every index is at least the entry's position. */
  lemma {:induction false} IndexAtLeastPosition(L: seq<WindowInfo>, k: nat)
    requires forall i, j | 0 <= i < j < |L| :: L[i].index < L[j].index
    requires k < |L|
    ensures k <= L[k].index
  {
    if k > 0 {
      IndexAtLeastPosition(L, k - 1);
      assert L[k - 1].index < L[k].index;
    }
  }

  /** `get_all_windows()`: nothing when the enumeration itself raises. */
  function Listed(all: seq<Window>, enumerationRaises: bool): seq<WindowInfo>
    reads all
  {
    if enumerationRaises then [] else Scan(all).entries
  }

  /** Once an inspection has raised, the remaining windows are never looked at. */
  lemma {:induction false} StopIsFinal(ws: seq<Window>, j: nat)
    requires j <= |ws| && Scan(ws[..j]).stopped
    ensures Scan(ws) == Scan(ws[..j])
    decreases |ws|
  {
    if j < |ws| {
      var n := |ws| - 1;
      assert ws[..n][..j] == ws[..j];
      StopIsFinal(ws[..n], j);
    } else {
      assert ws[..j] == ws;
    }
  }

  /**
    * When nothing raises, the listing holds every window with a title that is visible,
    * and nothing else.
    */
  lemma ListedWhenNothingRaises(all: seq<Window>, i: nat)
    requires forall j | 0 <= j < |all| :: !all[j].inspectRaises
    requires i < |all|
    ensures Listable(all[i]) <==> exists k | 0 <= k < |Listed(all, false)| :: Listed(all, false)[k].index == i
  {
    assert Listed(all, false) == Scan(all).entries;
    if Listable(all[i]) {
      ScanComplete(all, i);
    }
  }

  /**
    * Entry indices coincide with list positions exactly when none of the first |L|
    * enumerated windows was filtered out.
    */
  lemma IndicesArePositionsIff(all: seq<Window>)
    ensures var L := Listed(all, false);
            (forall k | 0 <= k < |L| :: L[k].index == k) <==>
            (forall i | 0 <= i < |L| :: Listable(all[i]))
  {
    var L := Listed(all, false);
    assert L == Scan(all).entries;
    if forall i | 0 <= i < |L| :: Listable(all[i]) {
      forall i | 0 <= i < |L| ensures IndexOccurs(L, i) {
        ScanComplete(all, i);
      }
      IndicesFromStart(L, |L|);
    } else if forall k | 0 <= k < |L| :: L[k].index == k {
      forall i | 0 <= i < |L| ensures Listable(all[i]) {
        assert L[i].index == i;
      }
    }
  }

  /** Some entry of `L` carries index `i`. */
  predicate IndexOccurs(L: seq<WindowInfo>, i: nat) {
    exists k | 0 <= k < |L| :: L[k].index == i
  }

  /**
    * Strictly increasing indices among which every position of the list occurs are the
    * positions themselves.
    */
  lemma {:induction false} IndicesFromStart(L: seq<WindowInfo>, m: nat)
    requires forall i, j | 0 <= i < j < |L| :: L[i].index < L[j].index
    requires forall i | 0 <= i < |L| :: IndexOccurs(L, i)
    requires m <= |L|
    ensures forall k | 0 <= k < m :: L[k].index == k
  {
    if m > 0 {
      IndicesFromStart(L, m - 1);
      assert IndexOccurs(L, m - 1);
      var k :| 0 <= k < |L| && L[k].index == m - 1;
      IndexAtLeastPosition(L, k);
      assert k == m - 1;
    }
  }


  /**
    * `get_all_windows()`: the loop over the enumeration, with the exception handler
    * returning whatever was collected before something raised.
    */
  method GetAllWindows(all: seq<Window>, enumerationRaises: bool) returns (windows: seq<WindowInfo>)
    ensures windows == Listed(all, enumerationRaises)
  {
    windows := [];
    if enumerationRaises {
      return;
    }
    var i := 0;
    while i < |all|
      invariant 0 <= i <= |all|
      invariant !Scan(all[..i]).stopped && windows == Scan(all[..i]).entries
    {
      assert all[..i + 1][..i] == all[..i];
      var window := all[i];
      if window.inspectRaises {
        StopIsFinal(all, i + 1);
        return;
      }
      if window.title != "" && window.visible {
        windows := windows + [WindowInfo(i, window.title, window.left, window.top, window.width,
                                         window.height, window.isActive, window.isMaximized, window)];
      }
      i := i + 1;
    }
    assert all[..i] == all;
  }

  /** The case-insensitive title test of `find_window_by_title`. */
  predicate TitleMatches(e: WindowInfo, titleSubstring: string) {
    PyStr.Contains(PyStr.Lower(e.title), PyStr.Lower(titleSubstring))
  }

  /**
    * `find_window_by_title(title_substring)`: the first listed window whose lower-cased
    * title contains the lower-cased substring, or nothing when none does.
    */
  method FindWindowByTitle(all: seq<Window>, enumerationRaises: bool, titleSubstring: string)
    returns (found: Option<WindowInfo>)
    ensures var L := Listed(all, enumerationRaises);
            && (found.None? <==> forall k | 0 <= k < |L| :: !TitleMatches(L[k], titleSubstring))
            && (found.Some? ==> exists k | 0 <= k < |L| ::
                                  && L[k] == found.value && TitleMatches(L[k], titleSubstring)
                                  && forall j | 0 <= j < k :: !TitleMatches(L[j], titleSubstring))
  {
    var windows := GetAllWindows(all, enumerationRaises);
    var i := 0;
    while i < |windows|
      invariant 0 <= i <= |windows|
      invariant forall j | 0 <= j < i :: !TitleMatches(windows[j], titleSubstring)
    {
      if PyStr.Contains(PyStr.Lower(windows[i].title), PyStr.Lower(titleSubstring)) {
        return Some(windows[i]);
      }
      i := i + 1;
    }
    return None;
  }

  /** The empty substring is contained in every title, so it selects the first listed window. */
  lemma EmptySubstringMatchesAll(e: WindowInfo)
    ensures TitleMatches(e, "")
  {
    assert PyStr.OccursAt(PyStr.Lower(e.title), [], 0);
  }

  /** Lower-casing the substring first changes no match: the search already ignores its case. */
  lemma TitleMatchLowersSubstring(e: WindowInfo, titleSubstring: string)
    ensures TitleMatches(e, titleSubstring) <==> TitleMatches(e, PyStr.Lower(titleSubstring))
  {
    PyStr.LowerIdempotent(titleSubstring);
  }

  /** Substrings that differ only in the case of ASCII letters match the same windows. */
  lemma TitleMatchIgnoresCase(e: WindowInfo, a: string, b: string)
    requires PyStr.CaseVariants(a, b)
    ensures TitleMatches(e, a) <==> TitleMatches(e, b)
  {
    PyStr.CaseVariantsLowerAlike(a, b);
  }

  /** Windows whose titles differ only in the case of ASCII letters match the same substrings. */
  lemma TitleCaseIsIgnored(e: WindowInfo, f: WindowInfo, titleSubstring: string)
    requires PyStr.CaseVariants(e.title, f.title)
    ensures TitleMatches(e, titleSubstring) <==> TitleMatches(f, titleSubstring)
  {
    PyStr.CaseVariantsLowerAlike(e.title, f.title);
  }

  /**
    * `focus_window(window_info)`: restore the window if it is minimised, then activate it;
    * true when that succeeded, false when anything raised.
    */
  method FocusWindow(info: WindowInfo) returns (ok: bool)
    modifies info.window
    ensures var w := info.window;
            && (ok <==> !w.inspectRaises && !(old(w.isMinimized) && w.restoreRaises) && !w.activateRaises)
            && (ok ==> !w.isMinimized && w.isActive)
            && w.isMinimized == (old(w.isMinimized) && (w.inspectRaises || w.restoreRaises))
            && w.isActive == (old(w.isActive) || ok)
  {
    var window := info.window;
    if window.inspectRaises {
      return false;
    }
    if window.isMinimized {
      if window.restoreRaises {
        return false;
      }
      window.isMinimized := false;
    }
    if window.activateRaises {
      return false;
    }
    window.isActive := true;
    return true;
  }

  /** One entry of the capture library's monitor list. */
  datatype Monitor = Monitor(left: int, top: int, width: int, height: int)

  /**
    * `get_screen_size()`: the size of the primary monitor, which is entry 1 of the monitor
    * list (entry 0 spans all monitors); IndexError when there is no entry 1.
    */
  function GetScreenSize(monitors: seq<Monitor>): (r: Result<(int, int), PyError>)
    ensures r.Err? <==> |monitors| < 2
    ensures r.Err? ==> r.error == IndexError
    ensures r.Ok? ==> r.value == (monitors[1].width, monitors[1].height)
  {
    if |monitors| < 2 then Err(IndexError) else Ok((monitors[1].width, monitors[1].height))
  }

  // ----- callers' lookup of a listed window by its index -----

  /** The callers' lookup: the index taken as a position in the listing, after a bounds check. */
  function SelectByPosition(L: seq<WindowInfo>, index: int): (r: Option<WindowInfo>)
    ensures r.Some? <==> 0 <= index < |L|
    ensures r.Some? ==> r.value == L[index]
  {
    if 0 <= index < |L| then Some(L[index]) else None
  }

  /**
    * As soon as a window before a listed one has been filtered out, looking the listed
    * window up by its own index yields another entry or nothing.
    */
  lemma PositionLookupMissesShiftedEntry(all: seq<Window>, k: nat)
    requires k < |Listed(all, false)| && Listed(all, false)[k].index != k
    ensures SelectByPosition(Listed(all, false), Listed(all, false)[k].index) != Some(Listed(all, false)[k])
  {
    var L := Listed(all, false);
    var p := L[k].index;
    IndexAtLeastPosition(L, k);
    if p < |L| {
      assert L[k].index < L[p].index;
    }
  }

  /** The lookup the callers need: the entry whose `index` is the one requested. */
  function SelectByIndex(L: seq<WindowInfo>, index: int): (r: Option<WindowInfo>)
    ensures r.None? <==> forall k | 0 <= k < |L| :: L[k].index != index
    ensures r.Some? ==> exists k | 0 <= k < |L| :: L[k] == r.value && r.value.index == index
  {
    if L == [] then None
    else if L[0].index == index then Some(L[0])
    else SelectByIndex(L[1..], index)
  }

  /** Every listed window is found again by its own index. */
  lemma SelectByIndexFindsEntry(all: seq<Window>, enumerationRaises: bool, k: nat)
    requires k < |Listed(all, enumerationRaises)|
    ensures var L := Listed(all, enumerationRaises); SelectByIndex(L, L[k].index) == Some(L[k])
  {
    var L := Listed(all, enumerationRaises);
    var r := SelectByIndex(L, L[k].index);
    var k' :| 0 <= k' < |L| && L[k'] == r.value && r.value.index == L[k].index;
  }
}
