/**
 * The platform filter buttons (src/components/PlatformFilter.tsx): clicking a platform
 * removes it from the selected set when it is there and adds it otherwise.
 */
module PlatformFilter {

  /** The selection after toggling `platform`. */
  function Toggled(platforms: set<string>, platform: string): (r: set<string>)
    ensures platform in platforms ==> platform !in r
    ensures platform !in platforms ==> platform in r
    ensures forall p :: p != platform ==> (p in r <==> p in platforms)
  {
    if platform in platforms then platforms - {platform} else platforms + {platform}
  }

  /** Toggling the same platform twice restores the selection. */
  lemma ToggleTwice(platforms: set<string>, platform: string)
    ensures Toggled(Toggled(platforms, platform), platform) == platforms
  {
  }

  /** Toggling two platforms gives the same selection in either order. */
  lemma ToggleCommutes(platforms: set<string>, a: string, b: string)
    ensures Toggled(Toggled(platforms, a), b) == Toggled(Toggled(platforms, b), a)
  {
  }

  /** The selected set the filter reads and replaces. */
  class PlatformSelection {
    var selectedPlatforms: set<string>

    constructor(selected: set<string>)
      ensures selectedPlatforms == selected
    {
      selectedPlatforms := selected;
    }

    /** `togglePlatform(platform)`: edits a copy, then hands the copy to the setter. */
    method TogglePlatform(platform: string)
      modifies this
      ensures selectedPlatforms == Toggled(old(selectedPlatforms), platform)
    {
      var newPlatforms := selectedPlatforms;
      if platform in newPlatforms {
        newPlatforms := newPlatforms - {platform};
      } else {
        newPlatforms := newPlatforms + {platform};
      }
      selectedPlatforms := newPlatforms;
    }
  }
}
