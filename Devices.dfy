// The `navigator` fields both scripts read to tell the visitor's device, and
// the three platforms they tell apart.

module Devices {
  import opened JsValues

  /** `navigator.userAgent`, `navigator.platform` and `navigator.maxTouchPoints`. */
  datatype Navigator = Navigator(userAgent: string, platform: string, maxTouchPoints: int)

  datatype Platform = IOS | Android | Desktop
  {
    /** The string the scripts use for the platform. */
    function Name(): (s: string)
      ensures s in {"ios", "android", "desktop"}
    {
      match this
      case IOS => "ios"
      case Android => "android"
      case Desktop => "desktop"
    }
  }

  /** `/iPad|iPhone|iPod/.test(userAgent)`. */
  predicate AppleMobileAgent(userAgent: string)
  {
    Contains(userAgent, "iPad") || Contains(userAgent, "iPhone") || Contains(userAgent, "iPod")
  }

  /** A touch-enabled Mac-class device: `platform === 'MacIntel' && maxTouchPoints > 1`. */
  predicate TouchMac(nav: Navigator)
  {
    nav.platform == "MacIntel" && nav.maxTouchPoints > 1
  }

  /** `/Android/.test(userAgent)`. */
  predicate AndroidAgent(userAgent: string)
  {
    Contains(userAgent, "Android")
  }
}
