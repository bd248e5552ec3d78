/** The profile-links list (`view/profile_links/ui/delegate/ProfileLinksAdapterDelegate.kt`):
    the icon shown for a social profile's provider, the URL a click hands on, and which items
    the delegate renders. */
module ProfileLinks {
  import opened Common

  /** `SocialProfile`: a link to one of the user's profiles elsewhere. */
  datatype SocialProfile = SocialProfile(name: string, provider: string, url: string)

  /** The icons a link can carry. */
  datatype Drawable = FacebookIcon | InstagramIcon | TwitterIcon | VkIcon | WebIcon

  /** The providers that have their own icon. */
  const KnownProviders: seq<string> := ["facebook", "instagram", "twitter", "vk"]

  /** `resolveProfileLinkDrawable`: exact, case-sensitive matching of the provider name. */
  function ResolveProfileLinkDrawable(provider: string): (d: Drawable)
    ensures d == FacebookIcon <==> provider == "facebook"
    ensures d == InstagramIcon <==> provider == "instagram"
    ensures d == TwitterIcon <==> provider == "twitter"
    ensures d == VkIcon <==> provider == "vk"
    ensures d == WebIcon <==> provider !in KnownProviders
  {
    if provider == "facebook" then FacebookIcon
    else if provider == "instagram" then InstagramIcon
    else if provider == "twitter" then TwitterIcon
    else if provider == "vk" then VkIcon
    else WebIcon
  }

  /** Each known provider has an icon of its own: two providers share an icon only when both
      fall back to the web icon. */
  lemma DistinctProvidersDistinctIcons(p: string, q: string)
    requires p != q
    requires ResolveProfileLinkDrawable(p) == ResolveProfileLinkDrawable(q)
    ensures ResolveProfileLinkDrawable(p) == WebIcon
    ensures p !in KnownProviders && q !in KnownProviders
  {
  }

  /** Matching is case-sensitive: a capitalised provider gets the web icon. */
  lemma CapitalisedProviderIsWeb()
    ensures ResolveProfileLinkDrawable("Facebook") == WebIcon
    ensures ResolveProfileLinkDrawable("VK") == WebIcon
  {
  }

  /** The row's click listener: the bound item's URL, or the empty string before any item is
      bound. */
  function ClickUrl(item: Option<SocialProfile>): (url: string)
    ensures item.Some? ==> url == item.value.url
    ensures item.None? ==> url == ""
  {
    match item
    case Some(p) => p.url
    case None => ""
  }

  /** `isForViewType`: the delegate renders every item at every position. */
  function IsForViewType(position: int, data: SocialProfile): (b: bool)
    ensures b
  {
    true
  }
}
