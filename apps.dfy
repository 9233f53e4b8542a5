/**
  The installed-application record shared by the hidden-apps repository and
  the app drawer. Only the two fields this model reads are kept: the label
  shown in the drawer and the package name that identifies the app.
 */
module Apps {
  datatype App = App(name: string, packageName: string)

  /** The apps table: every record is filed under its own package name. */
  ghost predicate KeyedByPackage(apps: map<string, App>) {
    forall p :: p in apps ==> apps[p].packageName == p
  }
}
