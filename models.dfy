/**
 * The app's records (Models.kt). Channel is an immutable value whose name
 * and url must always be supplied; every other field has a default.
 * PlaylistEntry's fields are `var` in Kotlin: here a field update is a
 * datatype update (`e.(url := u)`), which yields the same record the
 * in-place assignment leaves behind.
 */
module Models {

  const DefaultUserAgent: string := "Default"

  datatype Channel = Channel(
    name: string,
    url: string,
    logo: string := "",
    cookie: string := "",
    referer: string := "",
    origin: string := "",
    userAgent: string := DefaultUserAgent,
    groupTitle: string := "")

  datatype PlaylistEntry = PlaylistEntry(
    name: string := "",
    url: string := "",
    logo: string := "",
    cookie: string := "",
    referer: string := "",
    origin: string := "",
    userAgent: string := DefaultUserAgent)

  /** A channel built from name and url alone carries every default. */
  lemma ChannelDefaults(name: string, url: string)
    ensures var c := Channel(name, url);
            c.name == name && c.url == url
            && c.logo == "" && c.cookie == "" && c.referer == "" && c.origin == ""
            && c.userAgent == "Default" && c.groupTitle == ""
  {
  }

  /** A playlist entry built with no arguments is empty except for its user agent. */
  lemma PlaylistEntryDefaults()
    ensures var e := PlaylistEntry();
            e.name == "" && e.url == "" && e.logo == "" && e.cookie == ""
            && e.referer == "" && e.origin == "" && e.userAgent == "Default"
  {
  }

  /** Data-class equality is field-wise: two channels are equal exactly when all eight fields are. */
  lemma ChannelEquality(a: Channel, b: Channel)
    ensures a == b <==> (a.name == b.name && a.url == b.url && a.logo == b.logo && a.cookie == b.cookie
                         && a.referer == b.referer && a.origin == b.origin
                         && a.userAgent == b.userAgent && a.groupTitle == b.groupTitle)
  {
  }

  /** Assigning one `var` field of an entry changes that field and leaves the others as they were. */
  lemma PlaylistEntryAssignUrl(e: PlaylistEntry, u: string)
    ensures var e' := e.(url := u);
            e'.url == u && e'.name == e.name && e'.logo == e.logo && e'.cookie == e.cookie
            && e'.referer == e.referer && e'.origin == e.origin && e'.userAgent == e.userAgent
  {
  }
}
