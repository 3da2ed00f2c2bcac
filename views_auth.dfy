/** Accounts and the post-login redirect. An account may be linked to a
    lecturer profile, a student profile, both or neither. */
module Auth {
  import opened Common
  import opened MasterData

  /** A logged-in account: the lecturer and student records linked to it. */
  datatype User = User(dosenProfile: Option<DosenId>, mahasiswaProfile: Option<MahasiswaId>)

  /** A linked profile always resolves to a stored record. */
  predicate ProfilesResolve(u: User, dosens: map<DosenId, Dosen>, students: map<MahasiswaId, Mahasiswa>)
  {
    (u.dosenProfile.Some? ==> u.dosenProfile.value in dosens) &&
    (u.mahasiswaProfile.Some? ==> u.mahasiswaProfile.value in students)
  }

  /** What a view answers: a refusal with the message of its
      `HttpResponseForbidden`, a 404 from `get_object_or_404`, or its
      normal outcome. */
  datatype Response<T> = Denied(message: string) | NotFound | Ok(value: T)

  datatype Route =
    | KoordinatorDashboard
    | DosenDashboard
    | MahasiswaDashboard
    | Forbidden(message: string)

  /** `after_login`: a lecturer goes to the coordinator dashboard when
      flagged as coordinator and to the lecturer dashboard otherwise; the
      lecturer profile wins over a student profile; an account with no
      profile is refused. */
  function AfterLogin(u: User, dosens: map<DosenId, Dosen>): (r: Route)
    requires u.dosenProfile.Some? ==> u.dosenProfile.value in dosens
    ensures r == KoordinatorDashboard <==>
      u.dosenProfile.Some? && dosens[u.dosenProfile.value].isKoordinatorPkl
    ensures r == DosenDashboard <==>
      u.dosenProfile.Some? && !dosens[u.dosenProfile.value].isKoordinatorPkl
    ensures r == MahasiswaDashboard <==> u.dosenProfile.None? && u.mahasiswaProfile.Some?
    ensures r.Forbidden? <==> u.dosenProfile.None? && u.mahasiswaProfile.None?
    ensures r.Forbidden? ==> r.message == "Akun ini belum dihubungkan ke data Dosen atau Mahasiswa."
  {
    if u.dosenProfile.Some? then
      if dosens[u.dosenProfile.value].isKoordinatorPkl then KoordinatorDashboard else DosenDashboard
    else if u.mahasiswaProfile.Some? then
      MahasiswaDashboard
    else
      Forbidden("Akun ini belum dihubungkan ke data Dosen atau Mahasiswa.")
  }

  /** An account linked to both a lecturer and a student is routed as the
      lecturer. */
  lemma DosenProfileTakesPrecedence(u: User, dosens: map<DosenId, Dosen>)
    requires u.dosenProfile.Some? && u.dosenProfile.value in dosens
    requires u.mahasiswaProfile.Some?
    ensures AfterLogin(u, dosens) == AfterLogin(u.(mahasiswaProfile := None), dosens)
    ensures AfterLogin(u, dosens) != MahasiswaDashboard
  {
  }
}
