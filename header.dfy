/** The site header's light/dark switch: the mode and icon state, the
    `data-bs-theme` attribute of the document, and the `mode` entry of the
    browser's local storage, all as plain fields. React's deferred state
    updates are taken to apply at once. */
module Header {
  import opened Common

  /** The three values the switch keeps in step. `theme` is `None` while the
      header has not set the attribute. */
  datatype ThemeState = ThemeState(mode: string, icon: string, theme: Option<string>)

  /** Mode and icon agree (the moon offers dark mode, the sun light mode),
      and the attribute shows the mode. */
  predicate Consistent(s: ThemeState) {
    ((s.mode == "light" && s.icon == "moon") || (s.mode == "dark" && s.icon == "sun"))
    && s.theme == Some(s.mode)
  }

  /** The state before any effect runs. */
  function Initial(): (s: ThemeState)
    ensures s.mode == "light" && s.icon == "moon" && s.theme == None
  {
    ThemeState("light", "moon", None)
  }

  /** The mount effect, given what local storage holds under "mode": a
      stored non-empty value becomes mode and attribute, with the moon for
      "light" and the sun for anything else; nothing stored changes nothing. */
  function Mounted(s: ThemeState, stored: Option<string>): (t: ThemeState)
    ensures (stored == None || stored == Some("")) ==> t == s
    ensures stored.Some? && stored.value != "" ==>
      t.mode == stored.value && t.theme == Some(stored.value)
      && (t.icon == "moon" <==> stored.value == "light")
      && (t.icon == "sun" <==> stored.value != "light")
  {
    match stored
    case None => s
    case Some(m) =>
      if m == "" then s
      else ThemeState(m, if m == "light" then "moon" else "sun", Some(m))
  }

  /** `switchColorMode`: from dark to light, from anything else to dark. The
      result is consistent whatever the state before. */
  function Switched(s: ThemeState): (t: ThemeState)
    ensures Consistent(t)
    ensures t.mode == "light" <==> s.mode == "dark"
  {
    if s.mode == "dark" then ThemeState("light", "moon", Some("light"))
    else ThemeState("dark", "sun", Some("dark"))
  }

  /** From a consistent light or dark state, one switch changes the mode and
      a second restores mode, icon and attribute. */
  lemma SwitchTwice(s: ThemeState)
    requires Consistent(s)
    ensures Switched(s).mode != s.mode
    ensures Switched(Switched(s)) == s
  {
  }

  /** A stored value that is not "light" is shown with the sun, yet the next
      switch reads the mode, not the icon, and goes to dark unless the stored
      value was "dark". */
  lemma MountedUnknownMode(m: string)
    requires m != "" && m != "light" && m != "dark"
    ensures !Consistent(Mounted(Initial(), Some(m)))
    ensures Mounted(Initial(), Some(m)).icon == "sun"
    ensures Switched(Mounted(Initial(), Some(m))).mode == "dark"
  {
  }

  /** The persisted mode restores the state on the next visit: mounting with
      a consistent state's mode brings back that state. */
  lemma MountRestoresPersisted(s: ThemeState)
    requires Consistent(s)
    ensures Mounted(Initial(), Some(s.mode)) == s
  {
  }

  class Header {
    var mode: string
    var icon: string
    /** The document's `data-bs-theme` attribute as the header sets it. */
    var theme: Option<string>
    /** The browser's local storage. */
    var storage: map<string, string>

    function State(): ThemeState
      reads this
    {
      ThemeState(mode, icon, theme)
    }

    /** `useState("moon")`, `useState("light")`; the storage is what the
        browser already holds. */
    constructor (saved: map<string, string>)
      ensures State() == Initial() && storage == saved
    {
      mode := "light";
      icon := "moon";
      theme := None;
      storage := saved;
    }

    /** The first effect, run once on mount. */
    method Mount()
      modifies this`mode, this`icon, this`theme
      ensures State() == Mounted(old(State()), if "mode" in storage then Some(storage["mode"]) else None)
    {
      var storedMode: Option<string> := if "mode" in storage then Some(storage["mode"]) else None;
      if storedMode.Some? && storedMode.value != "" {
        mode := storedMode.value;
        theme := Some(storedMode.value);
        if storedMode.value == "light" {
          icon := "moon";
        } else {
          icon := "sun";
        }
      }
    }

    /** The second effect, run whenever the mode has changed: the mode is
        written under "mode" and no other entry changes. */
    method Persist()
      modifies this`storage
      ensures storage == old(storage)["mode" := mode]
      ensures "mode" in storage && storage["mode"] == mode
    {
      storage := storage["mode" := mode];
    }

    method SwitchColorMode()
      modifies this`mode, this`icon, this`theme
      ensures State() == Switched(old(State()))
    {
      if mode == "dark" {
        icon := "moon";
        mode := "light";
        theme := Some("light");
      } else {
        icon := "sun";
        mode := "dark";
        theme := Some("dark");
      }
    }
  }

  /** A click followed by the persistence effect leaves the storage holding
      the new mode, in a consistent state. */
  method ClickAndPersist(h: Header)
    modifies h
    ensures h.State() == Switched(old(h.State()))
    ensures Consistent(h.State())
    ensures "mode" in h.storage && h.storage["mode"] == h.mode
  {
    h.SwitchColorMode();
    h.Persist();
  }
}
