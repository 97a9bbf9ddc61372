/** The browser's login state: whether an administrator is logged in, the
    token the server issued, and the user record, whose role and permission
    list are overwritten at login. Persisting the state in browser storage is
    not part of this model. */
module Auth {
  import opened Wrappers

  datatype Role = Admin | Moderator | RegularUser

  datatype User = User(id: int, kullaniciAdi: string, email: string, rol: Role, izinler: seq<string>)

  const DefaultPermissions: seq<string> := [
    "kullanici_yonetimi",
    "bot_yonetimi",
    "guvenlik_yonetimi",
    "veritabani_yonetimi",
    "sistem_loglari_goruntuleme",
    "webhook_yonetimi",
    "komut_yonetimi",
    "ai_yonetimi",
    "analiz_goruntuleme",
    "performans_goruntuleme",
    "mesaj_yonetimi",
    "medya_yonetimi",
    "bildirim_yonetimi"
  ]

  /** The record stored at login: whatever was passed, made an administrator
      with the default permissions. */
  function WithPermissions(u: User): (r: User)
    ensures r.rol == Admin && r.izinler == DefaultPermissions
    ensures r.id == u.id && r.kullaniciAdi == u.kullaniciAdi && r.email == u.email
  {
    u.(rol := Admin, izinler := DefaultPermissions)
  }

  /** `yetkiVarMi` on a given user. */
  predicate Allowed(user: Option<User>, yetki: string) {
    user.Some? && (yetki in user.value.izinler || user.value.rol == Admin)
  }

  /** Whoever logged in may do everything; with nobody logged in nothing is
      allowed; a user that is not an administrator may do exactly what its
      list names. */
  lemma AllowedSpec(u: User, yetki: string)
    ensures Allowed(Some(WithPermissions(u)), yetki)
    ensures !Allowed(None, yetki)
    ensures u.rol != Admin ==> (Allowed(Some(u), yetki) <==> exists i :: 0 <= i < |u.izinler| && u.izinler[i] == yetki)
  {
  }

  class AuthStore {
    var girisYapildi: bool
    var token: Option<string>
    var user: Option<User>

    /** Logged in exactly when a user is stored, and a stored user is an
        administrator with the default permissions. */
    ghost predicate Valid()
      reads this
    {
      (girisYapildi <==> user.Some?) && (girisYapildi <==> token.Some?)
      && (user.Some? ==> user.value.rol == Admin && user.value.izinler == DefaultPermissions)
    }

    constructor()
      ensures Valid()
      ensures !girisYapildi && token == None && user == None
    {
      girisYapildi := false;
      token := None;
      user := None;
    }

    method GirisYap(t: string, u: User)
      modifies this
      ensures Valid()
      ensures girisYapildi && token == Some(t) && user == Some(WithPermissions(u))
      ensures forall yetki :: YetkiVarMi(yetki)
    {
      girisYapildi := true;
      token := Some(t);
      user := Some(u.(rol := Admin, izinler := DefaultPermissions));
    }

    method CikisYap()
      modifies this
      ensures Valid()
      ensures !girisYapildi && token == None && user == None
      ensures forall yetki :: !YetkiVarMi(yetki)
    {
      girisYapildi := false;
      token := None;
      user := None;
    }

    predicate YetkiVarMi(yetki: string)
      reads this
    {
      Allowed(user, yetki)
    }
  }
}
