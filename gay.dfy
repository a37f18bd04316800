/** The `gay` command: Brazilian number normalisation, fixed special numbers and the percentage table. */
module Gay {
  import opened Wrappers
  import opened JsString
  import opened SafeUtils
  import opened PercentRanges
  import opened Target

  /** `SPECIAL_NUMBERS`: normalised numbers whose percentage is fixed. */
  const SpecialNumbers: map<string, int> := map["557583258635" := 0, "555496630919" := 100]

  /** `GAY_RANGES` */
  const GayRanges: seq<PercentRange> := [
    PercentRange(0, 0, "É 100% hetero! 🚫", "hetero.mp4"),
    PercentRange(1, 25, "É quase hetero. Ainda há esperança! 🤏", "gay_1.mp4"),
    PercentRange(26, 49, "É quase meio gay. Está na dúvida! 🤔", "gay_2.mp4"),
    PercentRange(50, 75, "É gay. Orgulho! 🏳️‍🌈", "gay_3.mp4"),
    PercentRange(76, 99, "É gayzão! Não tem mais volta! 🌈", "gay_4.mp4"),
    PercentRange(100, 100, "É o gay mais gay da terra! 👑", "gay_5.mp4")
  ]

  /**
   * `normalizePhoneNumber`: the digits of `lid`, with the country code 55
   * put in front of a 10- or 11-digit number that does not already start with it.
   */
  function NormalizePhoneNumber(lid: string): (r: string)
    ensures AllDigits(r)
    ensures var d := OnlyNumbers(lid);
      (r == d && !((|d| == 10 || |d| == 11) && !StartsWith(d, "55"))) ||
      (r == "55" + d && (|d| == 10 || |d| == 11) && !StartsWith(d, "55"))
  {
    var number := OnlyNumbers(lid);
    if (|number| == 10 || |number| == 11) && !StartsWith(number, "55") then "55" + number else number
  }

  /** Normalising a normalised number changes nothing. */
  lemma NormalizeIdempotent(lid: string)
    ensures NormalizePhoneNumber(NormalizePhoneNumber(lid)) == NormalizePhoneNumber(lid)
  {
    var r := NormalizePhoneNumber(lid);
    OnlyNumbersFixesDigits(r);
    if r != OnlyNumbers(lid) {
      assert |r| >= 12;
    }
  }

  /**
   * `calculateGayPercentage`: a special number gets its fixed value; any
   * other number gets `random`, the value `getRandomNumber(0, 100)` returned.
   */
  function CalculateGayPercentage(normalizedNumber: string, random: int): (p: int)
    ensures normalizedNumber in SpecialNumbers ==> p == SpecialNumbers[normalizedNumber]
    ensures normalizedNumber !in SpecialNumbers ==> p == random
  {
    if normalizedNumber in SpecialNumbers then SpecialNumbers[normalizedNumber] else random
  }

  /** A special number, written with or without the country code, never consults the random fallback. */
  lemma SpecialNumberIsFixed(local: string, random: int)
    requires local == "7583258635" || local == "5496630919"
    ensures CalculateGayPercentage(NormalizePhoneNumber("55" + local + "@lid"), random) ==
            CalculateGayPercentage(NormalizePhoneNumber(local + "@lid"), random) ==
            (if local == "7583258635" then 0 else 100)
  {
    var full := "55" + local;
    if local == "7583258635" {
      assert full == "557583258635";
    } else {
      assert full == "555496630919";
    }
    assert full in SpecialNumbers;
    assert |local| == 10 && AllDigits(local);
    assert local[0] != '5' || local[1] != '5';
    LocalNumberGetsCountryCode(local);
  }

  /** A ten-digit number without the 55 prefix normalises to the same number as its 55-prefixed form. */
  lemma LocalNumberGetsCountryCode(local: string)
    requires |local| == 10 && AllDigits(local) && (local[0] != '5' || local[1] != '5')
    ensures NormalizePhoneNumber(local + "@lid") == "55" + local
    ensures NormalizePhoneNumber("55" + local + "@lid") == "55" + local
  {
    assert AllDigits("55" + local);
    OnlyNumbersOfLid(local);
    OnlyNumbersOfLid("55" + local);
    assert "55" + local + "@lid" == ("55" + local) + "@lid";
    assert !StartsWith(local, "55");
  }

  /** Every integer percentage 0..100 falls in exactly one band; 0 is hetero, 100 the top band. */
  lemma GayRangesPartition(p: int)
    requires 0 <= p <= 100
    ensures UniqueBand(GayRanges, p) && Find(GayRanges, p).Some?
    ensures p == 0 ==> Find(GayRanges, p).value.gif == "hetero.mp4"
    ensures p == 100 ==> Find(GayRanges, p).value.gif == "gay_5.mp4"
  {
    ContiguousPartitions(GayRanges, 0, 100, p);
  }

  datatype GayReply =
    | InvalidParameter
    | ErrorReply
    | Gif(gif: string, mention: string, percentage: int, result: string, mentions: seq<string>)

  /**
   * `handle`: resolves the target, normalises its number, computes the
   * percentage and sends the band's GIF mentioning the target.
   */
  function Handle(args: seq<string>, isReply: bool, replyLid: Option<string>, random: int): (r: GayReply)
    requires 0 <= random <= 100
    ensures r.InvalidParameter? <==> ResolveTarget(args, isReply, replyLid).MissingArgument?
    ensures r.ErrorReply? <==> ResolveTarget(args, isReply, replyLid).Unidentified?
    ensures r.Gif? ==> var lid := ResolveTarget(args, isReply, replyLid).lid;
      && r.mentions == [lid]
      && r.mention == "@" + NormalizePhoneNumber(lid)
      && r.percentage == CalculateGayPercentage(NormalizePhoneNumber(lid), random)
      && 0 <= r.percentage <= 100
      && Find(GayRanges, r.percentage).Some?
      && r.gif == Find(GayRanges, r.percentage).value.gif
      && r.result == Find(GayRanges, r.percentage).value.message
      && exists i :: 0 <= i < |GayRanges| && Matches(GayRanges[i], r.percentage) && GayRanges[i].gif == r.gif
  {
    match ResolveTarget(args, isReply, replyLid)
    case MissingArgument => InvalidParameter
    case Unidentified => ErrorReply
    case Resolved(lid) =>
      var normalized := NormalizePhoneNumber(lid);
      var percentage := CalculateGayPercentage(normalized, random);
      GayRangesPartition(percentage);
      var band := Find(GayRanges, percentage).value;
      Gif(band.gif, "@" + normalized, percentage, band.message, [lid])
  }

  /**
   * A special number typed as the argument reaches the handler: the reply
   * carries its fixed percentage, whatever the random draw was.
   */
  lemma HandleSpecialNumber(local: string, random: int)
    requires local == "7583258635" || local == "5496630919"
    requires 0 <= random <= 100
    ensures var r := Handle([local], false, None, random);
      r.Gif? && r.percentage == (if local == "7583258635" then 0 else 100) &&
      r.gif == (if local == "7583258635" then "hetero.mp4" else "gay_5.mp4")
  {
    var p := if local == "7583258635" then 0 else 100;
    TypedSpecialNumber(local, random);
    GayRangesPartition(p);
  }

  /** The typed special number resolves to `<local>@lid` and draws its fixed percentage. */
  lemma TypedSpecialNumber(local: string, random: int)
    requires local == "7583258635" || local == "5496630919"
    ensures ResolveTarget([local], false, None) == Resolved(local + "@lid")
    ensures CalculateGayPercentage(NormalizePhoneNumber(local + "@lid"), random) == (if local == "7583258635" then 0 else 100)
  {
    assert AllDigits(local);
    OnlyNumbersFixesDigits(local);
    SpecialNumberIsFixed(local, random);
  }
}
