/** The guard in front of the dashboard's pages: a visitor who is not
    logged in is sent to the login page, a logged-in user who holds none of
    a listed page's permissions is sent to the home page, and everyone else
    sees the page. */
module ProtectedRoute {
  import opened Wrappers
  import opened Auth

  /** The pages that need a permission, and which. */
  const PermissionMap: map<string, seq<string>> := map[
    "/kullanicilar" := ["kullanici_yonetimi"],
    "/bot-ayarlari" := ["bot_yonetimi"],
    "/guvenlik" := ["guvenlik_yonetimi"],
    "/veritabani" := ["veritabani_yonetimi"],
    "/sistem-loglari" := ["sistem_loglari_goruntuleme"],
    "/webhook-yonetimi" := ["webhook_yonetimi"],
    "/komut-yonetimi" := ["komut_yonetimi"],
    "/prompts" := ["ai_yonetimi"],
    "/analizler" := ["analiz_goruntuleme"],
    "/performans" := ["performans_goruntuleme"]
  ]

  datatype Decision = ToLogin | ToHome | Render

  /** `gerekliYetkiler.some(yetkiVarMi)`. */
  predicate HoldsAny(user: Option<User>, needed: seq<string>) {
    exists i :: 0 <= i < |needed| && Allowed(user, needed[i])
  }

  function Decide(girisYapildi: bool, user: Option<User>, path: string): Decision {
    if !girisYapildi then ToLogin
    else if path in PermissionMap && !HoldsAny(user, PermissionMap[path]) then ToHome
    else Render
  }

  /** The three outcomes: no login always goes to the login page; a listed
      page whose permissions the user lacks goes home; an unlisted page is
      shown to any logged-in user. */
  lemma DecideSpec(girisYapildi: bool, user: Option<User>, path: string)
    ensures !girisYapildi ==> Decide(girisYapildi, user, path) == ToLogin
    ensures girisYapildi && path !in PermissionMap ==> Decide(girisYapildi, user, path) == Render
    ensures Decide(girisYapildi, user, path) == ToHome <==>
      girisYapildi && path in PermissionMap
      && forall i :: 0 <= i < |PermissionMap[path]| ==> !Allowed(user, PermissionMap[path][i])
  {
  }

  /** With the login store's state: after a login every page is shown, after
      a logout every page goes to the login page. */
  lemma StoreDecides(u: User, path: string)
    ensures Decide(true, Some(WithPermissions(u)), path) == Render
    ensures Decide(false, None, path) == ToLogin
  {
    if path in PermissionMap {
      AllowedSpec(u, PermissionMap[path][0]);
    }
  }

  /** A user that is not an administrator is shown a listed page exactly
      when its own list names one of that page's permissions. */
  lemma NonAdminNeedsListed(u: User, path: string)
    requires u.rol != Admin
    requires path in PermissionMap
    ensures Decide(true, Some(u), path) == Render <==>
      exists i, j :: 0 <= i < |PermissionMap[path]| && 0 <= j < |u.izinler| && u.izinler[j] == PermissionMap[path][i]
  {
    if Decide(true, Some(u), path) == Render {
      var i :| 0 <= i < |PermissionMap[path]| && Allowed(Some(u), PermissionMap[path][i]);
      AllowedSpec(u, PermissionMap[path][i]);
    }
  }
}
