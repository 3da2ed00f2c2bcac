/** The student's application form, reduced to the partner (mitra) fields:
    an existing partner from the list, or the name of a new one. */
module FormsPendaftaran {
  import opened Common

  const MitraRequiredMessage: string := "Silakan pilih mitra yang sudah ada atau isi nama mitra baru."

  /** The partner fields as cleaned: the chosen partner (absent when none
      was chosen) and the new partner's name. */
  datatype MitraPost = MitraPost(mitra: Option<MitraId>, mitraBaruNama: string)

  /** `mitraMissing` is the field-level error of the required `mitra`
      field; `nonFieldErrors` are those `clean` raises. */
  datatype MitraCheck = MitraCheck(mitraMissing: bool, nonFieldErrors: seq<string>)

  /** Field cleaning and `clean`: the model field `mitra` is required, and
      `clean` complains when neither a partner nor a new name is given. */
  function CleanMitra(p: MitraPost): (r: MitraCheck)
    ensures r.mitraMissing <==> p.mitra.None?
    ensures r.nonFieldErrors == [] || r.nonFieldErrors == [MitraRequiredMessage]
    ensures MitraRequiredMessage in r.nonFieldErrors <==> p.mitra.None? && p.mitraBaruNama == ""
  {
    MitraCheck(p.mitra.None?,
      if p.mitra.None? && p.mitraBaruNama == "" then [MitraRequiredMessage] else [])
  }

  predicate MitraValid(r: MitraCheck)
  {
    !r.mitraMissing && r.nonFieldErrors == []
  }

  /** The partner fields pass exactly when an existing partner is chosen:
      a new partner's name only silences the custom message. */
  lemma MitraValidIffChosen(p: MitraPost)
    ensures MitraValid(CleanMitra(p)) <==> p.mitra.Some?
    ensures p.mitra.None? && p.mitraBaruNama != "" ==>
      !MitraValid(CleanMitra(p)) && CleanMitra(p).nonFieldErrors == []
  {
  }

  /** Neither a partner nor a new name: the custom message is reported. */
  lemma NeitherPartnerNorName()
    ensures CleanMitra(MitraPost(None, "")).nonFieldErrors == [MitraRequiredMessage]
    ensures !MitraValid(CleanMitra(MitraPost(None, "")))
  {
  }

  /** An existing partner: valid, whatever the new-name field holds. */
  lemma ExistingPartnerValid(m: MitraId, nama: string)
    ensures MitraValid(CleanMitra(MitraPost(Some(m), nama)))
  {
  }

  /** A new partner's name and no partner: no custom message. */
  lemma NewPartnerNameSilencesMessage()
    ensures MitraRequiredMessage !in CleanMitra(MitraPost(None, "Mitra Baru")).nonFieldErrors
  {
  }
}
