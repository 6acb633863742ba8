/**
 * The login page's role tabs: the three roles and the fixed presentation
 * metadata the login form takes on for each of them.
 */
module Roles {
  import opened Wrappers

  datatype Role = Student | Faculty | Admin

  /** The `data-role` value of a role's tab. */
  function RoleKey(r: Role): string
  {
    match r
    case Student => "student"
    case Faculty => "faculty"
    case Admin => "admin"
  }

  /** How the login form presents a role. */
  datatype RoleInfo = RoleInfo(icon: string, title: string, description: string, identifierLabel: string,
                               placeholder: string, inputType: string, sampleCredentials: string)

  /**
   * getRoleDetails: the entry of the fixed three-key table, or nothing for
   * any other key. Every entry carries a sample-credential hint, and only
   * faculty sign in with an e-mail field.
   */
  function GetRoleDetails(key: string): (r: Option<RoleInfo>)
    ensures r.Some? <==> key == "student" || key == "faculty" || key == "admin"
    ensures r.Some? ==> (r.value.inputType == "email" <==> key == "faculty")
    ensures r.Some? ==> r.value.inputType == "email" || r.value.inputType == "text"
    ensures r.Some? ==> r.value.sampleCredentials != ""
  {
    if key == "student" then
      Some(RoleInfo("graduation-cap", "Student Portal",
                    "Access your timetable, exam schedule, and apply for leave",
                    "Roll Number", "Roll Number (e.g., 23CSE001)", "text",
                    "Sample: 23CSE001 / password123"))
    else if key == "faculty" then
      Some(RoleInfo("users", "Faculty Portal",
                    "Manage your teaching schedule and invigilation duties",
                    "Email", "Email (e.g., faculty@college.edu)", "email",
                    "Sample: ram@college.edu / password123"))
    else if key == "admin" then
      Some(RoleInfo("shield", "Admin Portal",
                    "Complete system administration and management",
                    "Username", "Admin Username", "text",
                    "Sample: admin / admin123"))
    else None
  }

  /** The metadata of a role's own tab; the lookup is total on the three roles. */
  function Details(r: Role): (info: RoleInfo)
    ensures GetRoleDetails(RoleKey(r)) == Some(info)
  {
    GetRoleDetails(RoleKey(r)).value
  }

  /** The parts of the login form that switchRole rewrites. */
  datatype LoginView = LoginView(icon: string, title: string, description: string, identifierLabel: string,
                                 placeholder: string, inputType: string, sampleText: string, sampleShown: bool)

  /**
   * The login form after switchRole with the given metadata: every text is
   * replaced, and the sample-credential line is shown with the new hint when
   * there is one, and hidden (keeping its old text) when there is none.
   */
  function Reconfigure(v: LoginView, info: RoleInfo): LoginView
  {
    var shown := info.sampleCredentials != "";
    LoginView(info.icon, info.title, info.description, info.identifierLabel, info.placeholder, info.inputType,
              if shown then info.sampleCredentials else v.sampleText, shown)
  }

  /**
   * Switching to a role puts exactly that role's metadata on the form,
   * whatever the form showed before, with its sample hint visible.
   */
  lemma SwitchRoleShowsRole(v: LoginView, r: Role)
    ensures var w := Reconfigure(v, Details(r));
      var info := Details(r);
      && w.title == info.title && w.identifierLabel == info.identifierLabel
      && w.placeholder == info.placeholder && w.inputType == info.inputType
      && w.sampleShown && w.sampleText == info.sampleCredentials
    ensures forall v' :: Reconfigure(v', Details(r)) == Reconfigure(v, Details(r))
  {
  }
}
