/** The application-wide snackbar: `notify(msg, severity)` shows one message at a time, and the
    snackbar's close handlers hide it again. */
module NotificationsProvider {
  import opened Wrappers

  datatype Severity = Success | Error | Info | Warning

  /** A message together with its severity, as handed to `notify`. */
  datatype Notice = Notice(message: string, severity: Severity)

  /** The provider's three state cells. */
  class Notifications {
    var open: bool
    var message: string
    var severity: Severity

    /** The notice the snackbar currently displays, if it is open. */
    function Shown(): Option<Notice>
      reads this
    {
      if open then Some(Notice(message, severity)) else None
    }

    /** Initial state: closed, empty message, severity "info". */
    constructor ()
      ensures !open && message == "" && severity == Info
      ensures Shown() == None
    {
      open := false;
      message := "";
      severity := Info;
    }

    /** `notify(msg, sev)`; an omitted severity (`None`) takes the default "info". The latest
        call wins: message and severity are overwritten, whatever was shown before. */
    method Notify(msg: string, sev: Option<Severity>)
      modifies this
      ensures message == msg && severity == sev.GetOr(Info) && open
      ensures Shown() == Some(Notice(msg, sev.GetOr(Info)))
    {
      message := msg;
      severity := sev.GetOr(Info);
      open := true;
    }

    /** Several `notify` calls in a row, in order: each overwrites the last, so the snackbar ends
        up showing the final notice, and a run of none leaves it as it was. */
    method NotifyEach(notices: seq<Notice>)
      modifies this
      ensures notices == [] ==> open == old(open) && message == old(message) && severity == old(severity)
      ensures notices != [] ==> Shown() == Some(notices[|notices| - 1])
    {
      var i := 0;
      while i < |notices|
        invariant 0 <= i <= |notices|
        invariant i == 0 ==> open == old(open) && message == old(message) && severity == old(severity)
        invariant i > 0 ==> Shown() == Some(notices[i - 1])
      {
        Notify(notices[i].message, Some(notices[i].severity));
        i := i + 1;
      }
    }

    /** `onClose` of the Snackbar and of its Alert: hide, keep message and severity. */
    method Close()
      modifies this`open
      ensures !open && Shown() == None
      ensures message == old(message) && severity == old(severity)
    {
      open := false;
    }
  }
}
