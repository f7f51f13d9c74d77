/**
 * The trust mode and the two classification tables the bootstrap installs on the system
 * row: the CoS map (IEEE 802.1Q priority code point to local priority) and the DSCP map
 * (DiffServ code point to local priority). Every map row also keeps a copy of its
 * factory values in its `hw_defaults` string map so that they can be restored later.
 */
module QosMaps {
  import opened Wrappers
  import opened Decimal
  import opened Schema
  import opened QosConstants

  /** The arguments of one `set_cos_map_entry` call. */
  datatype CosSetting = CosSetting(codePoint: int, localPriority: int, color: string, description: string)

  /** The arguments of one `set_dscp_map_entry` call. */
  datatype DscpSetting = DscpSetting(
    codePoint: int,
    localPriority: int,
    priorityCodePoint: int,
    color: string,
    description: string)

  /*
   * Trust mode
   */

  /** Sets the trust mode to its default and keeps every other QoS setting of the system. */
  function InitTrust(s: Store): (r: Store)
    ensures TrustKey in r.system.qosConfig && r.system.qosConfig[TrustKey] == "none"
    ensures forall k :: k != TrustKey ==> (k in r.system.qosConfig <==> k in s.system.qosConfig)
    ensures forall k :: k != TrustKey && k in s.system.qosConfig ==>
      r.system.qosConfig[k] == s.system.qosConfig[k]
    ensures r.system.(qosConfig := s.system.qosConfig) == s.system
    ensures r.(system := s.system) == s
  {
    s.(system := s.system.(qosConfig := s.system.qosConfig[TrustKey := TrustDefault]))
  }

  /*
   * Writing one map row
   */

  /**
   * Writes a CoS row's four columns and records them in `hw_defaults`; the numbers are
   * recorded as the decimal spelling of their 32-bit cast. Keys already present keep
   * their value unless they are among the four rewritten.
   */
  function SetCosMapEntry(e: CosMapEntry, c: CosSetting): (r: CosMapEntry)
    ensures r.codePoint == c.codePoint && r.localPriority == c.localPriority
    ensures r.color == c.color && r.description == c.description
    ensures r.hwDefaults.Keys == e.hwDefaults.Keys + {CodePointKey, LocalPriorityKey, ColorKey, DescriptionKey}
    ensures ParseInt(r.hwDefaults[CodePointKey]) == Some(Int32Of(c.codePoint))
    ensures ParseInt(r.hwDefaults[LocalPriorityKey]) == Some(Int32Of(c.localPriority))
    ensures r.hwDefaults[ColorKey] == c.color && r.hwDefaults[DescriptionKey] == c.description
    ensures PriorityCodePointKey in e.hwDefaults ==>
      r.hwDefaults[PriorityCodePointKey] == e.hwDefaults[PriorityCodePointKey]
  {
    FormatIntRoundTrip(Int32Of(c.codePoint));
    FormatIntRoundTrip(Int32Of(c.localPriority));
    var h := e.hwDefaults[CodePointKey := FormatInt(Int32Of(c.codePoint))]
                         [LocalPriorityKey := FormatInt(Int32Of(c.localPriority))]
                         [ColorKey := c.color]
                         [DescriptionKey := c.description];
    CosMapEntry(c.codePoint, c.localPriority, c.color, c.description, h)
  }

  /**
   * The DSCP counterpart of SetCosMapEntry; the priority code point is a one-value
   * optional column and is recorded under its own key as well.
   */
  function SetDscpMapEntry(e: DscpMapEntry, d: DscpSetting): (r: DscpMapEntry)
    ensures r.codePoint == d.codePoint && r.localPriority == d.localPriority
    ensures r.priorityCodePoint == [d.priorityCodePoint]
    ensures r.color == d.color && r.description == d.description
    ensures r.hwDefaults.Keys ==
      e.hwDefaults.Keys + {CodePointKey, LocalPriorityKey, PriorityCodePointKey, ColorKey, DescriptionKey}
    ensures ParseInt(r.hwDefaults[CodePointKey]) == Some(Int32Of(d.codePoint))
    ensures ParseInt(r.hwDefaults[LocalPriorityKey]) == Some(Int32Of(d.localPriority))
    ensures ParseInt(r.hwDefaults[PriorityCodePointKey]) == Some(Int32Of(d.priorityCodePoint))
    ensures r.hwDefaults[ColorKey] == d.color && r.hwDefaults[DescriptionKey] == d.description
  {
    FormatIntRoundTrip(Int32Of(d.codePoint));
    FormatIntRoundTrip(Int32Of(d.localPriority));
    FormatIntRoundTrip(Int32Of(d.priorityCodePoint));
    var h := e.hwDefaults[CodePointKey := FormatInt(Int32Of(d.codePoint))]
                         [LocalPriorityKey := FormatInt(Int32Of(d.localPriority))]
                         [PriorityCodePointKey := FormatInt(Int32Of(d.priorityCodePoint))]
                         [ColorKey := d.color]
                         [DescriptionKey := d.description];
    DscpMapEntry(d.codePoint, d.localPriority, [d.priorityCodePoint], d.color, d.description, h)
  }

  /**
   * The configuration a restore would read back from a CoS row's `hw_defaults`, or None
   * when a key is missing or a number does not parse.
   */
  function RestoreCosMapEntry(e: CosMapEntry): (r: Option<CosSetting>)
    ensures r.Some? ==> ColorKey in e.hwDefaults && r.value.color == e.hwDefaults[ColorKey]
    ensures r.Some? ==> DescriptionKey in e.hwDefaults && r.value.description == e.hwDefaults[DescriptionKey]
  {
    var h := e.hwDefaults;
    if CodePointKey in h && LocalPriorityKey in h && ColorKey in h && DescriptionKey in h then
      match (ParseInt(h[CodePointKey]), ParseInt(h[LocalPriorityKey]))
      case (Some(cp), Some(lp)) => Some(CosSetting(cp, lp, h[ColorKey], h[DescriptionKey]))
      case _ => None
    else None
  }

  /** The DSCP counterpart of RestoreCosMapEntry. */
  function RestoreDscpMapEntry(e: DscpMapEntry): (r: Option<DscpSetting>)
    ensures r.Some? ==> ColorKey in e.hwDefaults && r.value.color == e.hwDefaults[ColorKey]
    ensures r.Some? ==> DescriptionKey in e.hwDefaults && r.value.description == e.hwDefaults[DescriptionKey]
  {
    var h := e.hwDefaults;
    if CodePointKey in h && LocalPriorityKey in h && PriorityCodePointKey in h && ColorKey in h && DescriptionKey in h then
      match (ParseInt(h[CodePointKey]), ParseInt(h[LocalPriorityKey]), ParseInt(h[PriorityCodePointKey]))
      case (Some(cp), Some(lp), Some(pcp)) => Some(DscpSetting(cp, lp, pcp, h[ColorKey], h[DescriptionKey]))
      case _ => None
    else None
  }

  /**
   * The recorded factory values survive later edits of the live columns: whatever the
   * row's columns say afterwards, its `hw_defaults` give back the setting it was
   * initialised with, as long as the numbers fit the 32-bit cast.
   */
  lemma CosFactoryValuesRestore(e: CosMapEntry, c: CosSetting, edited: CosMapEntry)
    requires IsInt32(c.codePoint) && IsInt32(c.localPriority)
    requires edited.hwDefaults == SetCosMapEntry(e, c).hwDefaults
    ensures RestoreCosMapEntry(edited) == Some(c)
  {
    var h := SetCosMapEntry(e, c).hwDefaults;
    assert ParseInt(h[CodePointKey]) == Some(c.codePoint);
    assert ParseInt(h[LocalPriorityKey]) == Some(c.localPriority);
  }

  lemma DscpFactoryValuesRestore(e: DscpMapEntry, d: DscpSetting, edited: DscpMapEntry)
    requires IsInt32(d.codePoint) && IsInt32(d.localPriority) && IsInt32(d.priorityCodePoint)
    requires edited.hwDefaults == SetDscpMapEntry(e, d).hwDefaults
    ensures RestoreDscpMapEntry(edited) == Some(d)
  {
    var h := SetDscpMapEntry(e, d).hwDefaults;
    assert ParseInt(h[CodePointKey]) == Some(d.codePoint);
    assert ParseInt(h[LocalPriorityKey]) == Some(d.localPriority);
    assert ParseInt(h[PriorityCodePointKey]) == Some(d.priorityCodePoint);
  }

  /*
   * The default tables and the rules they follow
   */

  /** The default CoS map, in code-point order. */
  const DefaultCosSettings: seq<CosSetting> := [
      CosSetting(0, 1, "green", "Best_Effort"),
      CosSetting(1, 0, "green", "Background"),
      CosSetting(2, 2, "green", "Excellent_Effort"),
      CosSetting(3, 3, "green", "Critical_Applications"),
      CosSetting(4, 4, "green", "Video"),
      CosSetting(5, 5, "green", "Voice"),
      CosSetting(6, 6, "green", "Internetwork_Control"),
      CosSetting(7, 7, "green", "Network_Control")
    ]

  /*
   * The default DSCP map, in code-point order, grouped by class selector (eight code
   * points each) so that each group can be checked against the DiffServ rule on its own.
   */
  const DscpClass0Settings: seq<DscpSetting> := [
      DscpSetting(0, 0, 1, "green", "CS0"),
      DscpSetting(1, 0, 1, "green", ""),
      DscpSetting(2, 0, 1, "green", ""),
      DscpSetting(3, 0, 1, "green", ""),
      DscpSetting(4, 0, 1, "green", ""),
      DscpSetting(5, 0, 1, "green", ""),
      DscpSetting(6, 0, 1, "green", ""),
      DscpSetting(7, 0, 1, "green", "")
    ]

  const DscpClass1Settings: seq<DscpSetting> := [
      DscpSetting(8, 1, 0, "green", "CS1"),
      DscpSetting(9, 1, 0, "green", ""),
      DscpSetting(10, 1, 0, "green", "AF11"),
      DscpSetting(11, 1, 0, "green", ""),
      DscpSetting(12, 1, 0, "yellow", "AF12"),
      DscpSetting(13, 1, 0, "green", ""),
      DscpSetting(14, 1, 0, "red", "AF13"),
      DscpSetting(15, 1, 0, "green", "")
    ]

  const DscpClass2Settings: seq<DscpSetting> := [
      DscpSetting(16, 2, 2, "green", "CS2"),
      DscpSetting(17, 2, 2, "green", ""),
      DscpSetting(18, 2, 2, "green", "AF21"),
      DscpSetting(19, 2, 2, "green", ""),
      DscpSetting(20, 2, 2, "yellow", "AF22"),
      DscpSetting(21, 2, 2, "green", ""),
      DscpSetting(22, 2, 2, "red", "AF23"),
      DscpSetting(23, 2, 2, "green", "")
    ]

  const DscpClass3Settings: seq<DscpSetting> := [
      DscpSetting(24, 3, 3, "green", "CS3"),
      DscpSetting(25, 3, 3, "green", ""),
      DscpSetting(26, 3, 3, "green", "AF31"),
      DscpSetting(27, 3, 3, "green", ""),
      DscpSetting(28, 3, 3, "yellow", "AF32"),
      DscpSetting(29, 3, 3, "green", ""),
      DscpSetting(30, 3, 3, "red", "AF33"),
      DscpSetting(31, 3, 3, "green", "")
    ]

  const DscpClass4Settings: seq<DscpSetting> := [
      DscpSetting(32, 4, 4, "green", "CS4"),
      DscpSetting(33, 4, 4, "green", ""),
      DscpSetting(34, 4, 4, "green", "AF41"),
      DscpSetting(35, 4, 4, "green", ""),
      DscpSetting(36, 4, 4, "yellow", "AF42"),
      DscpSetting(37, 4, 4, "green", ""),
      DscpSetting(38, 4, 4, "red", "AF43"),
      DscpSetting(39, 4, 4, "green", "")
    ]

  const DscpClass5Settings: seq<DscpSetting> := [
      DscpSetting(40, 5, 5, "green", "CS5"),
      DscpSetting(41, 5, 5, "green", ""),
      DscpSetting(42, 5, 5, "green", ""),
      DscpSetting(43, 5, 5, "green", ""),
      DscpSetting(44, 5, 5, "green", ""),
      DscpSetting(45, 5, 5, "green", ""),
      DscpSetting(46, 5, 5, "green", "EF"),
      DscpSetting(47, 5, 5, "green", "")
    ]

  const DscpClass6Settings: seq<DscpSetting> := [
      DscpSetting(48, 6, 6, "green", "CS6"),
      DscpSetting(49, 6, 6, "green", ""),
      DscpSetting(50, 6, 6, "green", ""),
      DscpSetting(51, 6, 6, "green", ""),
      DscpSetting(52, 6, 6, "green", ""),
      DscpSetting(53, 6, 6, "green", ""),
      DscpSetting(54, 6, 6, "green", ""),
      DscpSetting(55, 6, 6, "green", "")
    ]

  const DscpClass7Settings: seq<DscpSetting> := [
      DscpSetting(56, 7, 7, "green", "CS7"),
      DscpSetting(57, 7, 7, "green", ""),
      DscpSetting(58, 7, 7, "green", ""),
      DscpSetting(59, 7, 7, "green", ""),
      DscpSetting(60, 7, 7, "green", ""),
      DscpSetting(61, 7, 7, "green", ""),
      DscpSetting(62, 7, 7, "green", ""),
      DscpSetting(63, 7, 7, "green", "")
    ]

  const DefaultDscpSettings: seq<DscpSetting> :=
    DscpClass0Settings + DscpClass1Settings + DscpClass2Settings + DscpClass3Settings +
    DscpClass4Settings + DscpClass5Settings + DscpClass6Settings + DscpClass7Settings

  /**
   * Local priority of a CoS code point: IEEE 802.1Q ranks code point 1 (background)
   * below 0 (best effort); every other code point keeps its number.
   */
  function CosLocalPriority(cp: int): (lp: int)
    ensures 0 <= cp <= MaxLocalPriority <==> 0 <= lp <= MaxLocalPriority
    ensures lp != cp <==> cp == 0 || cp == 1
  {
    if cp == 0 then 1 else if cp == 1 then 0 else cp
  }

  /** Swapping 0 and 1 twice is the identity, so the CoS rule is a permutation of 0..7. */
  lemma CosLocalPriorityInvolution(cp: int)
    ensures CosLocalPriority(CosLocalPriority(cp)) == cp
  {
  }

  /**
   * The default CoS map is the rule above: eight green rows, row i for code point i, each
   * local priority in 0..7, and no two rows with the same local priority or description.
   */
  lemma DefaultCosSettingsFollowRule()
    ensures |DefaultCosSettings| == CosMapEntryCount
    ensures forall i :: 0 <= i < |DefaultCosSettings| ==>
      && DefaultCosSettings[i].codePoint == i
      && DefaultCosSettings[i].localPriority == CosLocalPriority(i)
      && 0 <= DefaultCosSettings[i].localPriority <= MaxLocalPriority
      && DefaultCosSettings[i].color == "green"
    ensures forall i, j :: 0 <= i < j < |DefaultCosSettings| ==>
      && DefaultCosSettings[i].localPriority != DefaultCosSettings[j].localPriority
      && DefaultCosSettings[i].description != DefaultCosSettings[j].description
  {
  }

  /**
   * The DiffServ class selector of a code point (section 4.2.2 of RFC 2474): its top
   * three bits.
   */
  function DscpClass(cp: nat): (c: nat)
    requires cp < 64
    ensures c < 8 && 8 * c <= cp < 8 * c + 8
  {
    cp / 8
  }

  /**
   * Whether cp is one of the twelve Assured Forwarding code points AFxy of RFC 2597
   * (class x in 1..4, drop precedence y in 1..3, code point 8x + 2y).
   */
  predicate IsAssuredForwarding(cp: nat)
    requires cp < 64
  {
    1 <= DscpClass(cp) <= 4 && cp % 2 == 0 && cp % 8 != 0
  }

  /** The drop precedence y of AFxy. */
  function DropPrecedence(cp: nat): (y: nat)
    requires cp < 64 && IsAssuredForwarding(cp)
    ensures 1 <= y <= 3 && cp == 8 * DscpClass(cp) + 2 * y
  {
    (cp % 8) / 2
  }

  /**
   * The default setting of a DSCP code point, stated by its DiffServ meaning: the local
   * priority is the class; the priority code point is the CoS code point that maps to
   * that class; AF code points are coloured by drop precedence (1 green, 2 yellow,
   * 3 red) and everything else is green; class selectors, AF and Expedited Forwarding
   * (46, RFC 3246) carry their names and the rest have none.
   */
  function DscpReference(cp: nat): (d: DscpSetting)
    requires cp < 64
    ensures d.codePoint == cp && 0 <= d.localPriority <= MaxLocalPriority
  {
    var c := DscpClass(cp);
    var color :=
      if IsAssuredForwarding(cp) && DropPrecedence(cp) == 2 then "yellow"
      else if IsAssuredForwarding(cp) && DropPrecedence(cp) == 3 then "red"
      else "green";
    var description :=
      if cp % 8 == 0 then "CS" + [DigitChar(c)]
      else if IsAssuredForwarding(cp) then "AF" + [DigitChar(c), DigitChar(DropPrecedence(cp))]
      else if cp == 46 then "EF"
      else "";
    DscpSetting(cp, c, CosLocalPriority(c), color, description)
  }

  /** Checks a class block against the rule entry by entry, from offset j on. */
  predicate BlockAgrees(block: seq<DscpSetting>, c: nat, j: nat)
    decreases |block| - j
  {
    j >= |block| || (c < 8 && j < 8 && block[j] == DscpReference(8 * c + j) && BlockAgrees(block, c, j + 1))
  }

  lemma {:induction false} BlockAgreesMeans(block: seq<DscpSetting>, c: nat, j: nat)
    requires c < 8 && |block| <= 8
    requires BlockAgrees(block, c, j)
    ensures forall k :: j <= k < |block| ==> block[k] == DscpReference(8 * c + k)
    decreases |block| - j
  {
    if j < |block| {
      BlockAgreesMeans(block, c, j + 1);
    }
  }

  lemma DscpClass0Agrees()
    ensures BlockAgrees(DscpClass0Settings, 0, 0)
  {
  }

  lemma DscpClass1Agrees()
    ensures BlockAgrees(DscpClass1Settings, 1, 0)
  {
  }

  lemma DscpClass2Agrees()
    ensures BlockAgrees(DscpClass2Settings, 2, 0)
  {
  }

  lemma DscpClass3Agrees()
    ensures BlockAgrees(DscpClass3Settings, 3, 0)
  {
  }

  lemma DscpClass4Agrees()
    ensures BlockAgrees(DscpClass4Settings, 4, 0)
  {
  }

  lemma DscpClass5Agrees()
    ensures BlockAgrees(DscpClass5Settings, 5, 0)
  {
  }

  lemma DscpClass6Agrees()
    ensures BlockAgrees(DscpClass6Settings, 6, 0)
  {
  }

  lemma DscpClass7Agrees()
    ensures BlockAgrees(DscpClass7Settings, 7, 0)
  {
  }

  /**
   * The default DSCP map is the DiffServ rule: 64 entries, entry cp for code point cp,
   * with the class as local priority and the colours and names of RFC 2474, RFC 2597
   * and RFC 3246.
   */
  lemma DefaultDscpFollowsReference()
    ensures |DefaultDscpSettings| == DscpMapEntryCount
    ensures forall cp :: 0 <= cp < |DefaultDscpSettings| ==> DefaultDscpSettings[cp] == DscpReference(cp)
  {
    DscpClass0Agrees();
    DscpClass1Agrees();
    DscpClass2Agrees();
    DscpClass3Agrees();
    DscpClass4Agrees();
    DscpClass5Agrees();
    DscpClass6Agrees();
    DscpClass7Agrees();
    JoinCheckedClasses(DscpClass0Settings, DscpClass1Settings, DscpClass2Settings, DscpClass3Settings,
                       DscpClass4Settings, DscpClass5Settings, DscpClass6Settings, DscpClass7Settings);
  }

  /** Eight checked class blocks, laid end to end, are the rule's whole table. */
  lemma JoinCheckedClasses(c0: seq<DscpSetting>, c1: seq<DscpSetting>, c2: seq<DscpSetting>, c3: seq<DscpSetting>,
                           c4: seq<DscpSetting>, c5: seq<DscpSetting>, c6: seq<DscpSetting>, c7: seq<DscpSetting>)
    requires |c0| == 8 && BlockAgrees(c0, 0, 0)
    requires |c1| == 8 && BlockAgrees(c1, 1, 0)
    requires |c2| == 8 && BlockAgrees(c2, 2, 0)
    requires |c3| == 8 && BlockAgrees(c3, 3, 0)
    requires |c4| == 8 && BlockAgrees(c4, 4, 0)
    requires |c5| == 8 && BlockAgrees(c5, 5, 0)
    requires |c6| == 8 && BlockAgrees(c6, 6, 0)
    requires |c7| == 8 && BlockAgrees(c7, 7, 0)
    ensures |c0 + c1 + c2 + c3 + c4 + c5 + c6 + c7| == 64
    ensures forall cp :: 0 <= cp < 64 ==> (c0 + c1 + c2 + c3 + c4 + c5 + c6 + c7)[cp] == DscpReference(cp)
  {
    var t := c0 + c1 + c2 + c3 + c4 + c5 + c6 + c7;
    forall cp | 0 <= cp < 64
      ensures t[cp] == DscpReference(cp)
    {
      if cp < 8 {
        BlockAgreesMeans(c0, 0, 0);
        assert t[cp] == c0[cp - 0];
      } else if cp < 16 {
        BlockAgreesMeans(c1, 1, 0);
        assert t[cp] == c1[cp - 8];
      } else if cp < 24 {
        BlockAgreesMeans(c2, 2, 0);
        assert t[cp] == c2[cp - 16];
      } else if cp < 32 {
        BlockAgreesMeans(c3, 3, 0);
        assert t[cp] == c3[cp - 24];
      } else if cp < 40 {
        BlockAgreesMeans(c4, 4, 0);
        assert t[cp] == c4[cp - 32];
      } else if cp < 48 {
        BlockAgreesMeans(c5, 5, 0);
        assert t[cp] == c5[cp - 40];
      } else if cp < 56 {
        BlockAgreesMeans(c6, 6, 0);
        assert t[cp] == c6[cp - 48];
      } else {
        BlockAgreesMeans(c7, 7, 0);
        assert t[cp] == c7[cp - 56];
      }
    }
  }

  /**
   * The two default maps are consistent: the priority code point each DSCP entry
   * carries is a CoS code point that the default CoS map sends to the same local
   * priority.
   */
  lemma DscpPriorityCodePointAgreesWithCos()
    ensures forall cp :: 0 <= cp < |DefaultDscpSettings| ==>
      && 0 <= DefaultDscpSettings[cp].priorityCodePoint < |DefaultCosSettings|
      && DefaultCosSettings[DefaultDscpSettings[cp].priorityCodePoint].localPriority
           == DefaultDscpSettings[cp].localPriority
  {
    DefaultDscpFollowsReference();
    DefaultCosSettingsFollowRule();
    forall cp | 0 <= cp < 64
      ensures DefaultCosSettings[DscpReference(cp).priorityCodePoint].localPriority == DscpReference(cp).localPriority
    {
      CosLocalPriorityInvolution(DscpClass(cp));
    }
  }

  /*
   * Installing the default maps
   */

  /**
   * The setter calls of a default-map builder: row base + i receives args[i], in order,
   * and no other row changes.
   */
  function WriteRows<E, A>(t: seq<E>, base: nat, args: seq<A>, write: (E, A) -> E): (r: seq<E>)
    requires base + |args| <= |t|
    ensures |r| == |t|
    ensures forall k :: 0 <= k < |t| && !(base <= k < base + |args|) ==> r[k] == t[k]
    ensures forall i :: 0 <= i < |args| ==> r[base + i] == write(t[base + i], args[i])
    decreases |args|, t
  {
    if |args| == 0 then t
    else
      var t' := t[base := write(t[base], args[0])];
      var r := WriteRows(t', base + 1, args[1..], write);
      assert forall i :: 1 <= i < |args| ==> args[1..][i - 1] == args[i];
      r
  }

  /**
   * Inserts eight fresh CoS rows, writes the default CoS map into them and points the
   * system at exactly those rows, in code-point order, whatever it pointed at before.
   */
  function InitCosMap(s: Store): (r: Store)
    ensures |r.cosMapEntries| == |s.cosMapEntries| + CosMapEntryCount
    ensures r.cosMapEntries[..|s.cosMapEntries|] == s.cosMapEntries
    ensures |r.system.cosMap| == CosMapEntryCount
    ensures forall i :: 0 <= i < |r.system.cosMap| ==> r.system.cosMap[i] == |s.cosMapEntries| + i
    ensures forall i :: 0 <= i < |DefaultCosSettings| ==>
      r.cosMapEntries[|s.cosMapEntries| + i] == SetCosMapEntry(FreshCosMapEntry, DefaultCosSettings[i])
    ensures r.(cosMapEntries := s.cosMapEntries, system := s.system) == s
    ensures r.system.(cosMap := s.system.cosMap) == s.system
  {
    var base := |s.cosMapEntries|;
    var rows := s.cosMapEntries + seq(CosMapEntryCount, _ => FreshCosMapEntry);
    var written := WriteRows(rows, base, DefaultCosSettings, SetCosMapEntry);
    s.(cosMapEntries := written, system := s.system.(cosMap := seq(CosMapEntryCount, i => base + i)))
  }

  /** The DSCP counterpart of InitCosMap, with 64 rows. */
  function InitDscpMap(s: Store): (r: Store)
    ensures |r.dscpMapEntries| == |s.dscpMapEntries| + DscpMapEntryCount
    ensures r.dscpMapEntries[..|s.dscpMapEntries|] == s.dscpMapEntries
    ensures |r.system.dscpMap| == DscpMapEntryCount
    ensures forall i :: 0 <= i < |r.system.dscpMap| ==> r.system.dscpMap[i] == |s.dscpMapEntries| + i
    ensures forall i :: 0 <= i < |DefaultDscpSettings| ==>
      r.dscpMapEntries[|s.dscpMapEntries| + i] == SetDscpMapEntry(FreshDscpMapEntry, DefaultDscpSettings[i])
    ensures r.(dscpMapEntries := s.dscpMapEntries, system := s.system) == s
    ensures r.system.(dscpMap := s.system.dscpMap) == s.system
  {
    var base := |s.dscpMapEntries|;
    var rows := s.dscpMapEntries + seq(DscpMapEntryCount, _ => FreshDscpMapEntry);
    var written := WriteRows(rows, base, DefaultDscpSettings, SetDscpMapEntry);
    s.(dscpMapEntries := written, system := s.system.(dscpMap := seq(DscpMapEntryCount, i => base + i)))
  }

  /**
   * What the system's CoS map reads after the bootstrap: entry i is a row for code point
   * i with the local priority of the IEEE 802.1Q rule, coloured green, whose factory
   * record holds exactly the four recorded keys and reads back as the same setting.
   */
  lemma InitCosMapInstallsDefaults(s: Store)
    ensures var r := InitCosMap(s);
      forall i :: 0 <= i < |r.system.cosMap| ==>
        && r.system.cosMap[i] < |r.cosMapEntries|
        && r.cosMapEntries[r.system.cosMap[i]].codePoint == i
        && r.cosMapEntries[r.system.cosMap[i]].localPriority == CosLocalPriority(i)
        && r.cosMapEntries[r.system.cosMap[i]].color == "green"
        && r.cosMapEntries[r.system.cosMap[i]].hwDefaults.Keys ==
             {CodePointKey, LocalPriorityKey, ColorKey, DescriptionKey}
        && RestoreCosMapEntry(r.cosMapEntries[r.system.cosMap[i]]) == Some(DefaultCosSettings[i])
  {
    var r := InitCosMap(s);
    DefaultCosSettingsFollowRule();
    forall i | 0 <= i < |r.system.cosMap|
      ensures r.system.cosMap[i] < |r.cosMapEntries|
      ensures r.cosMapEntries[r.system.cosMap[i]] == SetCosMapEntry(FreshCosMapEntry, DefaultCosSettings[i])
    {
    }
    forall c | c in DefaultCosSettings {
      FreshCosRow(c);
    }
  }

  /** A fresh CoS row written from c records exactly the four keys, and they read back as c. */
  lemma FreshCosRow(c: CosSetting)
    requires IsInt32(c.codePoint) && IsInt32(c.localPriority)
    ensures SetCosMapEntry(FreshCosMapEntry, c).hwDefaults.Keys ==
      {CodePointKey, LocalPriorityKey, ColorKey, DescriptionKey}
    ensures RestoreCosMapEntry(SetCosMapEntry(FreshCosMapEntry, c)) == Some(c)
  {
    CosFactoryValuesRestore(FreshCosMapEntry, c, SetCosMapEntry(FreshCosMapEntry, c));
  }

  /**
   * What the DiffServ rule asks of the row for code point cp: its columns are the rule's
   * setting, and its factory record holds exactly the five recorded keys and reads back
   * as the same setting.
   */
  ghost predicate HoldsDscpDefault(e: DscpMapEntry, cp: nat)
    requires cp < 64
  {
    && e.codePoint == cp
    && e.localPriority == DscpClass(cp)
    && e.priorityCodePoint == [DscpReference(cp).priorityCodePoint]
    && e.color == DscpReference(cp).color
    && e.description == DscpReference(cp).description
    && e.hwDefaults.Keys == {CodePointKey, LocalPriorityKey, PriorityCodePointKey, ColorKey, DescriptionKey}
    && RestoreDscpMapEntry(e) == Some(DscpReference(cp))
  }

  /** After the bootstrap, entry cp of the system's DSCP map is the rule's row for cp. */
  lemma InitDscpMapInstallsDefaults(s: Store)
    ensures var r := InitDscpMap(s);
      forall cp :: 0 <= cp < |r.system.dscpMap| ==>
        r.system.dscpMap[cp] < |r.dscpMapEntries| && HoldsDscpDefault(r.dscpMapEntries[r.system.dscpMap[cp]], cp)
  {
    var r := InitDscpMap(s);
    forall cp | 0 <= cp < |r.system.dscpMap|
      ensures r.system.dscpMap[cp] < |r.dscpMapEntries|
      ensures HoldsDscpDefault(r.dscpMapEntries[r.system.dscpMap[cp]], cp)
    {
      assert r.system.dscpMap[cp] == |s.dscpMapEntries| + cp;
      DscpRowInstalled(s, cp);
    }
  }

  lemma DscpRowInstalled(s: Store, cp: nat)
    requires cp < DscpMapEntryCount
    ensures var r := InitDscpMap(s);
      && |s.dscpMapEntries| + cp < |r.dscpMapEntries|
      && HoldsDscpDefault(r.dscpMapEntries[|s.dscpMapEntries| + cp], cp)
  {
    var r := InitDscpMap(s);
    var d := DscpReference(cp);
    DefaultDscpFollowsReference();
    assert DefaultDscpSettings[cp] == d;
    var e := r.dscpMapEntries[|s.dscpMapEntries| + cp];
    assert e == SetDscpMapEntry(FreshDscpMapEntry, d);
    FreshDscpRow(d);
    assert e.codePoint == cp;
    assert e.localPriority == DscpClass(cp);
    assert e.priorityCodePoint == [d.priorityCodePoint];
    assert e.color == d.color && e.description == d.description;
  }

  /** A fresh DSCP row written from d records exactly the five keys, and they read back as d. */
  lemma FreshDscpRow(d: DscpSetting)
    requires IsInt32(d.codePoint) && IsInt32(d.localPriority) && IsInt32(d.priorityCodePoint)
    ensures SetDscpMapEntry(FreshDscpMapEntry, d).hwDefaults.Keys ==
      {CodePointKey, LocalPriorityKey, PriorityCodePointKey, ColorKey, DescriptionKey}
    ensures RestoreDscpMapEntry(SetDscpMapEntry(FreshDscpMapEntry, d)) == Some(d)
  {
    DscpFactoryValuesRestore(FreshDscpMapEntry, d, SetDscpMapEntry(FreshDscpMapEntry, d));
  }
}
