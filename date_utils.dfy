/** Expiry status of a subscription, from the number of days until its expiry date
    (the value `daysRemaining` computes, here a parameter). */
module DateUtils {
  import opened Text

  /** The four styling bands, from most to least urgent. */
  datatype ExpiryStatus = Expired | ExpiringSoon | Upcoming | Active

  /** The band of a day count: negative is expired, up to a week is expiring soon, up
      to thirty days is upcoming, anything later is active. */
  function Band(days: int): ExpiryStatus {
    if days < 0 then Expired
    else if days <= 7 then ExpiringSoon
    else if days <= 30 then Upcoming
    else Active
  }

  /** The CSS class name of a band. */
  function ClassName(s: ExpiryStatus): string {
    match s
    case Expired => "expired"
    case ExpiringSoon => "expiring-soon"
    case Upcoming => "upcoming"
    case Active => "active"
  }

  /** `getExpiryStatusClass` for a day count, stated as the day range of each class. */
  function StatusClass(days: int): (r: string)
    ensures r == "expired" <==> days < 0
    ensures r == "expiring-soon" <==> 0 <= days <= 7
    ensures r == "upcoming" <==> 8 <= days <= 30
    ensures r == "active" <==> days > 30
  {
    ClassName(Band(days))
  }

  /** `getExpiryStatusText` for a day count. The two fixed labels are exact; the others
      are framed by their fixed words, with the count between them (see TextRanges). */
  function StatusText(days: int): (r: string)
    ensures days == 0 ==> r == "Expires today"
    ensures days == 1 ==> r == "Expires tomorrow"
    ensures days < 0 ==>
      |r| > 17 && r[..8] == "Expired " && r[|r| - 9..] == " days ago"
    ensures days >= 2 ==>
      |r| > 16 && r[..11] == "Expires in " && r[|r| - 5..] == " days"
  {
    if days < 0 then "Expired " + NatToString(-days) + " days ago"
    else if days == 0 then "Expires today"
    else if days == 1 then "Expires tomorrow"
    else "Expires in " + NatToString(days) + " days"
  }

  /** The position of a band on the scale from expired (0) to active (3). */
  function Rank(s: ExpiryStatus): nat {
    match s
    case Expired => 0
    case ExpiringSoon => 1
    case Upcoming => 2
    case Active => 3
  }

  /** Two bands have the same class name only when they are the same band. */
  lemma ClassNamesDistinct(s: ExpiryStatus, t: ExpiryStatus)
    ensures ClassName(s) == ClassName(t) <==> s == t
  {
  }

  /** More days never moves the status back toward expired. */
  lemma BandMonotone(d1: int, d2: int)
    requires d1 <= d2
    ensures Rank(Band(d1)) <= Rank(Band(d2))
  {
  }

  /** The label for each range of day counts, with the count written in decimal,
      without a leading zero. */
  lemma TextRanges(days: int)
    ensures days < 0 ==>
      exists n :: StatusText(days) == "Expired " + n + " days ago" && Numeral(n, -days)
    ensures days == 0 ==> StatusText(days) == "Expires today"
    ensures days == 1 ==> StatusText(days) == "Expires tomorrow"
    ensures days >= 2 ==>
      exists n :: StatusText(days) == "Expires in " + n + " days" && Numeral(n, days)
  {
    if days < 0 {
      assert StatusText(days) == "Expired " + NatToString(-days) + " days ago";
    } else if days >= 2 {
      assert StatusText(days) == "Expires in " + NatToString(days) + " days";
    }
  }

  /** The label starts with "Expired" exactly when the class is "expired". */
  lemma TextMatchesClass(days: int)
    ensures (|StatusText(days)| >= 7 && StatusText(days)[..7] == "Expired") <==>
            StatusClass(days) == "expired"
  {
    var t := StatusText(days);
    if days < 0 {
      assert t[..7] == ("Expired " + NatToString(-days) + " days ago")[..7];
    } else {
      assert t[6] == 's';
    }
  }
}
