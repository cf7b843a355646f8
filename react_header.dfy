/** The older class-component header: its only state is the icon, and the
    switch decides by the icon. The two icon assets are distinct fixed URLs,
    modelled as two distinct strings. */
module ReactHeader {
  import opened Common

  const MoonIcon: string := "moon.svg"
  const SunIcon: string := "sun.svg"

  /** The icon and the document's `data-bs-theme` attribute. */
  datatype IconState = IconState(icon: string, theme: Option<string>)

  /** `switchColorMode`: the sun goes to the moon and light, anything else to
      the sun and dark; afterwards the attribute is dark exactly when the icon
      is the sun. */
  function Switched(s: IconState): (t: IconState)
    ensures s.icon == SunIcon ==> t.icon == MoonIcon && t.theme == Some("light")
    ensures s.icon != SunIcon ==> t.icon == SunIcon && t.theme == Some("dark")
    ensures t.theme == Some("dark") <==> t.icon == SunIcon
  {
    if s.icon == SunIcon then IconState(MoonIcon, Some("light"))
    else IconState(SunIcon, Some("dark"))
  }

  /** Two switches from the moon or the sun bring the icon back. */
  lemma SwitchTwice(s: IconState)
    requires s.icon == MoonIcon || s.icon == SunIcon
    ensures Switched(s).icon != s.icon
    ensures Switched(Switched(s)).icon == s.icon
  {
  }

  class Header {
    var icon: string
    var theme: Option<string>

    function State(): IconState
      reads this
    {
      IconState(icon, theme)
    }

    /** `this.state = {icon: moon}`; the attribute is not set yet. */
    constructor ()
      ensures icon == MoonIcon && theme == None
    {
      icon := MoonIcon;
      theme := None;
    }

    method SwitchColorMode()
      modifies this
      ensures State() == Switched(old(State()))
    {
      if icon == SunIcon {
        icon := MoonIcon;
        theme := Some("light");
      } else {
        icon := SunIcon;
        theme := Some("dark");
      }
    }
  }
}
