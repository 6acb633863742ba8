/**
 * The in-memory record store of the portal's Flask back end: the tables of
 * the global `db_state`, the request records the POST handlers receive, the
 * status/message replies they send, and the handlers themselves.
 */
module Store {
  import opened Wrappers
  import Tables

  // ----- rows of the tables -----

  datatype Student = Student(id: int, rollNo: string, name: string, branch: string, section: string)
  datatype Faculty = Faculty(id: int, email: string, name: string)
  /** A timetable row; `isLab` is a key only some rows carry. */
  datatype TimetableEntry = TimetableEntry(day: string, period: int, subject: string, room: string,
                                           isLab: Option<bool>, sectionType: string)
  datatype ExamSchedule = ExamSchedule(subject: string, date: string, timeslot: string, room: string, seatNo: int)
  /** An invigilation row; only rows added by a swap request carry a `status`. */
  datatype Invigilation = Invigilation(facultyName: string, subject: string, date: string, room: string,
                                       status: Option<string>)
  datatype LeaveRequest = LeaveRequest(studentId: string, reason: string, date: string, status: string)
  /** A class section; `sectionType` is the row's "type" key (Static or Floating). */
  datatype Section = Section(branch: string, section: string, year: string, sectionType: string,
                             classTeacher: string)

  // ----- request bodies of the POST handlers, every key present -----

  datatype SectionUpdate = SectionUpdate(branch: string, section: string, sectionType: string, classTeacher: string)
  datatype SwapRequest = SwapRequest(fromFaculty: string, subject: string, date: string, room: string)
  datatype LeaveApplication = LeaveApplication(reason: string, date: string)
  datatype LeaveDecision = LeaveDecision(studentId: string, date: string, status: string)

  // ----- replies -----

  datatype Status = Success | Error
  datatype Response = Response(status: Status, message: string)

  const SectionUpdated := Response(Success, "Section updated successfully.")
  const SectionNotFound := Response(Error, "Section not found.")
  const SwapSubmitted := Response(Success, "Swap request submitted.")
  const LeaveSubmitted := Response(Success, "Leave request submitted.")
  const LeaveUpdated := Response(Success, "Leave request updated.")
  const LeaveNotFound := Response(Error, "Leave request not found.")

  /** The roll number every leave application is filed under. */
  const ApplicantRollNo := "23CSE001"

  // ----- payloads of the GET handlers -----

  datatype StudentData = StudentData(timetable: seq<TimetableEntry>, exams: seq<ExamSchedule>)
  datatype FacultyData = FacultyData(timetable: seq<TimetableEntry>, invigilations: seq<Invigilation>,
                                     leaveRequests: seq<LeaveRequest>)
  datatype AdminData = AdminData(sections: seq<Section>, leaveRequests: seq<LeaveRequest>)

  // ----- update_section, as a specification -----

  /** The row update_section looks for: same branch and same section. */
  function SectionKey(branch: string, section: string): Section -> bool
  {
    (s: Section) => s.branch == branch && s.section == section
  }

  /** The overwrite update_section performs on the row it finds. */
  function Reassign(req: SectionUpdate): Section -> Section
  {
    (s: Section) => s.(sectionType := req.sectionType, classTeacher := req.classTeacher)
  }

  /** The sections table after update_section(req). */
  function UpdatedSections(sections: seq<Section>, req: SectionUpdate): seq<Section>
  {
    Tables.UpdateFirst(sections, SectionKey(req.branch, req.section), Reassign(req))
  }

  /** The reply of update_section(req). */
  function SectionReply(sections: seq<Section>, req: SectionUpdate): Response
  {
    if Tables.FirstMatch(sections, SectionKey(req.branch, req.section)).Some? then SectionUpdated
    else SectionNotFound
  }

  /**
   * When row k is the first with the request's branch and section, it gets the
   * request's type and class teacher, keeps its branch, section and year,
   * every other row is unchanged, and the reply is success.
   */
  lemma UpdateSectionFound(sections: seq<Section>, req: SectionUpdate, k: nat)
    requires k < |sections|
    requires sections[k].branch == req.branch && sections[k].section == req.section
    requires forall j :: 0 <= j < k ==> !(sections[j].branch == req.branch && sections[j].section == req.section)
    ensures var r := UpdatedSections(sections, req);
      && |r| == |sections|
      && r[k] == Section(sections[k].branch, sections[k].section, sections[k].year, req.sectionType, req.classTeacher)
      && (forall j :: 0 <= j < |r| && j != k ==> r[j] == sections[j])
    ensures SectionReply(sections, req) == SectionUpdated
  {
    var p := SectionKey(req.branch, req.section);
    Tables.FirstMatchIs(sections, p, k);
    Tables.UpdateFirstChangesFirstMatch(sections, p, Reassign(req));
  }

  /** When no row has the request's branch and section, nothing changes and the reply is "Section not found.". */
  lemma UpdateSectionMissing(sections: seq<Section>, req: SectionUpdate)
    requires forall j :: 0 <= j < |sections| ==> !(sections[j].branch == req.branch && sections[j].section == req.section)
    ensures UpdatedSections(sections, req) == sections
    ensures SectionReply(sections, req) == SectionNotFound
  {
    var p := SectionKey(req.branch, req.section);
    assert forall j :: 0 <= j < |sections| ==> !p(sections[j]);
    Tables.UpdateFirstChangesFirstMatch(sections, p, Reassign(req));
  }

  /** Sending the same update_section request twice leaves the table as sending it once. */
  lemma UpdateSectionIdempotent(sections: seq<Section>, req: SectionUpdate)
    ensures UpdatedSections(UpdatedSections(sections, req), req) == UpdatedSections(sections, req)
    ensures SectionReply(UpdatedSections(sections, req), req) == SectionReply(sections, req)
  {
    var p, f := SectionKey(req.branch, req.section), Reassign(req);
    Tables.UpdateFirstIdempotent(sections, p, f);
    Tables.UpdateFirstChangesFirstMatch(sections, p, f);
    match Tables.FirstMatch(sections, p)
    case None =>
    case Some(i) =>
      assert p(UpdatedSections(sections, req)[i]);
  }

  // ----- approve_leave, as a specification -----

  /** The request approve_leave looks for: same student and same date. */
  function LeaveKey(studentId: string, date: string): LeaveRequest -> bool
  {
    (l: LeaveRequest) => l.studentId == studentId && l.date == date
  }

  /** The overwrite approve_leave performs on the request it finds. */
  function Decide(status: string): LeaveRequest -> LeaveRequest
  {
    (l: LeaveRequest) => l.(status := status)
  }

  /** The leave_requests table after approve_leave(d). */
  function DecidedLeaves(leaves: seq<LeaveRequest>, d: LeaveDecision): seq<LeaveRequest>
  {
    Tables.UpdateFirst(leaves, LeaveKey(d.studentId, d.date), Decide(d.status))
  }

  /** The reply of approve_leave(d). */
  function DecisionReply(leaves: seq<LeaveRequest>, d: LeaveDecision): Response
  {
    if Tables.FirstMatch(leaves, LeaveKey(d.studentId, d.date)).Some? then LeaveUpdated else LeaveNotFound
  }

  /**
   * When request k is the first with the decision's student and date, only
   * its status changes, to the decision's, and the reply is success.
   */
  lemma ApproveLeaveFound(leaves: seq<LeaveRequest>, d: LeaveDecision, k: nat)
    requires k < |leaves|
    requires leaves[k].studentId == d.studentId && leaves[k].date == d.date
    requires forall j :: 0 <= j < k ==> !(leaves[j].studentId == d.studentId && leaves[j].date == d.date)
    ensures var r := DecidedLeaves(leaves, d);
      && |r| == |leaves|
      && r[k] == LeaveRequest(leaves[k].studentId, leaves[k].reason, leaves[k].date, d.status)
      && (forall j :: 0 <= j < |r| && j != k ==> r[j] == leaves[j])
    ensures DecisionReply(leaves, d) == LeaveUpdated
  {
    var p := LeaveKey(d.studentId, d.date);
    Tables.FirstMatchIs(leaves, p, k);
    Tables.UpdateFirstChangesFirstMatch(leaves, p, Decide(d.status));
  }

  /** When no request has the decision's student and date, nothing changes and the reply is "Leave request not found.". */
  lemma ApproveLeaveMissing(leaves: seq<LeaveRequest>, d: LeaveDecision)
    requires forall j :: 0 <= j < |leaves| ==> !(leaves[j].studentId == d.studentId && leaves[j].date == d.date)
    ensures DecidedLeaves(leaves, d) == leaves
    ensures DecisionReply(leaves, d) == LeaveNotFound
  {
    var p := LeaveKey(d.studentId, d.date);
    assert forall j :: 0 <= j < |leaves| ==> !p(leaves[j]);
    Tables.UpdateFirstChangesFirstMatch(leaves, p, Decide(d.status));
  }

  // ----- the appending handlers, as specifications -----

  /** The row swap_invigilation appends. */
  function SwapEntry(req: SwapRequest): (e: Invigilation)
    ensures e.facultyName == "Request from " + req.fromFaculty
    ensures e.subject == req.subject && e.date == req.date && e.room == req.room
    ensures e.status == Some("Pending")
  {
    Invigilation("Request from " + req.fromFaculty, req.subject, req.date, req.room, Some("Pending"))
  }

  /** The request apply_leave appends, always under the same roll number. */
  function LeaveEntry(app: LeaveApplication): (e: LeaveRequest)
    ensures e.studentId == ApplicantRollNo && e.status == "Pending"
    ensures e.reason == app.reason && e.date == app.date
  {
    LeaveRequest(ApplicantRollNo, app.reason, app.date, "Pending")
  }

  /**
   * After apply_leave with date d, approve_leave for 23CSE001 on d always
   * finds a request. It decides an earlier request of 23CSE001 on d when
   * one exists, leaving the new one pending; otherwise it decides the new one.
   */
  lemma ApplyThenApprove(leaves: seq<LeaveRequest>, app: LeaveApplication, status: string)
    ensures var d := LeaveDecision(ApplicantRollNo, app.date, status);
      DecisionReply(leaves + [LeaveEntry(app)], d) == LeaveUpdated
    ensures var d := LeaveDecision(ApplicantRollNo, app.date, status);
      DecidedLeaves(leaves + [LeaveEntry(app)], d)
        == if DecisionReply(leaves, d) == LeaveUpdated then DecidedLeaves(leaves, d) + [LeaveEntry(app)]
           else leaves + [LeaveEntry(app).(status := status)]
  {
    var after := leaves + [LeaveEntry(app)];
    var p, f := LeaveKey(ApplicantRollNo, app.date), Decide(status);
    Tables.UpdateFirstChangesFirstMatch(leaves, p, f);
    Tables.UpdateFirstChangesFirstMatch(after, p, f);
    match Tables.FirstMatch(leaves, p)
    case Some(i) =>
      Tables.FirstMatchIs(after, p, i);
      assert after[i := f(after[i])] == leaves[i := f(leaves[i])] + [LeaveEntry(app)];
    case None =>
      Tables.FirstMatchIs(after, p, |leaves|);
      assert after[|leaves| := f(after[|leaves|])] == leaves + [LeaveEntry(app).(status := status)];
  }

  // ----- db_state and its handlers -----

  /** The global `db_state`: one list of rows per table, updated in place by the POST handlers. */
  class Database {
    var students: seq<Student>
    var faculty: seq<Faculty>
    var timetables: seq<TimetableEntry>
    var examSchedules: seq<ExamSchedule>
    var invigilations: seq<Invigilation>
    var leaveRequests: seq<LeaveRequest>
    var sections: seq<Section>

    /** The store as the process starts, holding the given rows. */
    constructor (students: seq<Student>, faculty: seq<Faculty>, timetables: seq<TimetableEntry>,
                 examSchedules: seq<ExamSchedule>, invigilations: seq<Invigilation>,
                 leaveRequests: seq<LeaveRequest>, sections: seq<Section>)
      ensures this.students == students && this.faculty == faculty
      ensures this.timetables == timetables && this.examSchedules == examSchedules
      ensures this.invigilations == invigilations && this.leaveRequests == leaveRequests
      ensures this.sections == sections
    {
      this.students := students;
      this.faculty := faculty;
      this.timetables := timetables;
      this.examSchedules := examSchedules;
      this.invigilations := invigilations;
      this.leaveRequests := leaveRequests;
      this.sections := sections;
    }

    /** get_student_data: the timetable and exam tables, unchanged. */
    method GetStudentData() returns (r: StudentData)
      ensures r.timetable == timetables && r.exams == examSchedules
    {
      r := StudentData(timetables, examSchedules);
    }

    /** get_faculty_data: the timetable, invigilation and leave tables, unchanged. */
    method GetFacultyData() returns (r: FacultyData)
      ensures r.timetable == timetables && r.invigilations == invigilations
      ensures r.leaveRequests == leaveRequests
    {
      r := FacultyData(timetables, invigilations, leaveRequests);
    }

    /** get_admin_data: the section and leave tables, unchanged. */
    method GetAdminData() returns (r: AdminData)
      ensures r.sections == sections && r.leaveRequests == leaveRequests
    {
      r := AdminData(sections, leaveRequests);
    }

    /** update_section: overwrite type and class teacher of the first row with the request's branch and section. */
    method UpdateSection(req: SectionUpdate) returns (resp: Response)
      modifies this`sections
      ensures sections == UpdatedSections(old(sections), req)
      ensures resp == SectionReply(old(sections), req)
    {
      var p := SectionKey(req.branch, req.section);
      var found := Tables.IndexOfFirst(sections, p);
      Tables.UpdateFirstChangesFirstMatch(sections, p, Reassign(req));
      match found
      case Some(i) =>
        sections := sections[i := sections[i].(sectionType := req.sectionType, classTeacher := req.classTeacher)];
        resp := SectionUpdated;
      case None =>
        resp := SectionNotFound;
    }

    /** swap_invigilation: append one pending row for the requested swap. */
    method SwapInvigilation(req: SwapRequest) returns (resp: Response)
      modifies this`invigilations
      ensures invigilations == old(invigilations) + [SwapEntry(req)]
      ensures resp == SwapSubmitted
    {
      invigilations := invigilations + [Invigilation("Request from " + req.fromFaculty, req.subject,
                                                      req.date, req.room, Some("Pending"))];
      resp := SwapSubmitted;
    }

    /** apply_leave: append one pending request filed under 23CSE001. */
    method ApplyLeave(app: LeaveApplication) returns (resp: Response)
      modifies this`leaveRequests
      ensures leaveRequests == old(leaveRequests) + [LeaveEntry(app)]
      ensures resp == LeaveSubmitted
    {
      leaveRequests := leaveRequests + [LeaveRequest(ApplicantRollNo, app.reason, app.date, "Pending")];
      resp := LeaveSubmitted;
    }

    /** approve_leave: set the status of the first request with the decision's student and date. */
    method ApproveLeave(d: LeaveDecision) returns (resp: Response)
      modifies this`leaveRequests
      ensures leaveRequests == DecidedLeaves(old(leaveRequests), d)
      ensures resp == DecisionReply(old(leaveRequests), d)
    {
      var p := LeaveKey(d.studentId, d.date);
      var found := Tables.IndexOfFirst(leaveRequests, p);
      Tables.UpdateFirstChangesFirstMatch(leaveRequests, p, Decide(d.status));
      match found
      case Some(i) =>
        leaveRequests := leaveRequests[i := leaveRequests[i].(status := d.status)];
        resp := LeaveUpdated;
      case None =>
        resp := LeaveNotFound;
    }
  }
}
