/**
 * The powers of two and ten that the cached powers are compared with, built up one
 * table step at a time. Written by cached_powers.py.
 */
module ExactPowers {
  import opened Powers

  // Named, so that powers of them are not unrolled as literals.
  const BASE_2: nat := 2
  const BASE_10: nat := 10

  lemma TwoStep3(n: nat)
    ensures Pow(BASE_2, n + 3) == 8 * Pow(BASE_2, n)
  {
    PowAdd(2, 3, n);
    assert Pow(2, 3) == 8;
  }

  lemma TwoStep24(n: nat)
    ensures Pow(BASE_2, n + 24) == 16777216 * Pow(BASE_2, n)
  {
    PowAdd(2, 24, n);
    PowAdd(2, 12, 12);
    PowAdd(2, 6, 6);
    assert Pow(2, 6) == 64;
    assert Pow(2, 24) == 16777216;
  }

  lemma TwoStep26(n: nat)
    ensures Pow(BASE_2, n + 26) == 67108864 * Pow(BASE_2, n)
  {
    PowAdd(2, 26, n);
    PowAdd(2, 13, 13);
    PowAdd(2, 6, 7);
    assert Pow(2, 6) == 64;
    assert Pow(2, 7) == 128;
    assert Pow(2, 26) == 67108864;
  }

  lemma TwoStep27(n: nat)
    ensures Pow(BASE_2, n + 27) == 134217728 * Pow(BASE_2, n)
  {
    PowAdd(2, 27, n);
    PowAdd(2, 13, 14);
    PowAdd(2, 6, 7);
    assert Pow(2, 6) == 64;
    assert Pow(2, 7) == 128;
    PowAdd(2, 7, 7);
    assert Pow(2, 7) == 128;
    assert Pow(2, 27) == 134217728;
  }

  lemma TenStep4(n: nat)
    ensures Pow(BASE_10, n + 4) == 10000 * Pow(BASE_10, n)
  {
    PowAdd(10, 4, n);
    assert Pow(10, 4) == 10000;
  }

  lemma TenStep8(n: nat)
    ensures Pow(BASE_10, n + 8) == 100000000 * Pow(BASE_10, n)
  {
    PowAdd(10, 8, n);
    assert Pow(10, 8) == 100000000;
  }

  lemma TwoUpTo210()
    ensures Pow(BASE_2, 24) == 16777216
    ensures Pow(BASE_2, 50) == 1125899906842624
    ensures Pow(BASE_2, 77) == 151115727451828646838272
    ensures Pow(BASE_2, 103) == 10141204801825835211973625643008
    ensures Pow(BASE_2, 130) == 1361129467683753853853498429727072845824
    ensures Pow(BASE_2, 157) == 182687704666362864775460604089535377456991567872
    ensures Pow(BASE_2, 183) == 12259964326927110866866776217202473468949912977468817408
    ensures Pow(BASE_2, 210) == 1645504557321206042154969182557350504982735865633579863348609024
  {
    hide Pow;
    PowZero(2);
    TwoStep24(0);
    TwoStep26(24);
    TwoStep27(50);
    TwoStep26(77);
    TwoStep27(103);
    TwoStep27(130);
    TwoStep26(157);
    TwoStep27(183);
  }

  lemma TwoUpTo422()
    ensures Pow(BASE_2, 236) == 110427941548649020598956093796432407239217743554726184882600387580788736
    ensures Pow(BASE_2, 263) == 14821387422376473014217086081112052205218558037201992197050570753012880593911808
    ensures Pow(BASE_2, 289) == 994646472819573284310764496293641680200912301594695434880927953786318994025066751066112
    ensures Pow(BASE_2, 316) == 133499189745056880149688856635597007162669032647290798121690100488888732861290034376435130433536
    ensures Pow(BASE_2, 343) == 17917957937422433684459538244547554224973163977877196279199912807710334969441287563047019946172856926208
    ensures Pow(BASE_2, 369) == 1202453802380202612679414065556140558016349465041059773802132977424491020858679523053413887173001575952350707712
    ensures Pow(BASE_2, 396) == 161390617380431786853494948250188242145606612051826469551916209783790476376052574664352834580008614464743948248296718336
    ensures Pow(BASE_2, 422) == 10830740992659433045228180406808920716548582325686783496759685861775864483615725089999900023844295226942934417817982702456930304
  {
    hide Pow;
    TwoUpTo210();
    TwoStep26(210);
    TwoStep27(236);
    TwoStep26(263);
    TwoStep27(289);
    TwoStep27(316);
    TwoStep26(343);
    TwoStep27(369);
    TwoStep26(396);
  }

  lemma TwoUpTo635()
    ensures Pow(BASE_2, 449) == 1453677448591213781098647615776009068707282721374636120562980398361278576226795846652382101427527131121525043212532355867069203257229312
    ensures Pow(BASE_2, 475) == 97554642197374757230674913431036447054643691958280348464348654988292866838117675628759565720734124098744591597543956965482749239977758915821568
    ensures Pow(BASE_2, 502) == 13093562431584567480052758787310396608866568184172259157933165472384535185618698219533080369303616628603546736510240284036869026183541572213314110357504
    ensures Pow(BASE_2, 529) == 1757388200993436087035366604564836663620975436836686184804982645551499054949799949343375268009332366074187855716219099657503228927927460816018951242525454630912
    ensures Pow(BASE_2, 555) == 117936325775673167257548580655883402841153788138013763386756446882675755074754651627691460161801836485670886719711370153117830769685149769767544820357271751364043603968
    ensures Pow(BASE_2, 582) == 15829145694278690179872161345257420162248406342477557754500035589945422406818039498900249667919554879334250971265032917718487362195632077437922953926521162746662833417516744704
    ensures Pow(BASE_2, 608) == 1062275985633534197379176413104937254659186235454063846398888276400807119721704485478325004530458571337778658972493002030693158675305414478819039957533174703887662541670786438063456256
    ensures Pow(BASE_2, 635) == 142576269300693600582536612678134103902913390851517497830599766184352348975271168328309775353667856243082572174174825228459022022542982437445395666241319193382874833573758279690089818507706368
  {
    hide Pow;
    TwoUpTo422();
    TwoStep27(422);
    TwoStep26(449);
    TwoStep27(475);
    TwoStep27(502);
    TwoStep26(529);
    TwoStep27(555);
    TwoStep26(582);
    TwoStep27(608);
  }

  lemma TwoUpTo847()
    ensures Pow(BASE_2, 661) == 9568131466127621947163770315237577352582483950433331955534014747297500715462012198465648064079848065788579276806882658480425438483841942548911565191978080929321047135323978360596199778018349602045952
    ensures Pow(BASE_2, 688) == 1284212866588958375791257295625031412487875928423626430541572486100764686107685747586344369208395617975337638880902885183842634826705030240021439152991181848133599529084092919480386659639727225896311829037056
    ensures Pow(BASE_2, 715) == 172364133221937103085272756482216056112753534658909761028039668631756215232006744379020625060744018369805777923479247838020220755974022884986972234404720831691332769255536872593544438018353486799545737272878084128768
    ensures Pow(BASE_2, 741) == 11567161174868858867503549817670155728287145622944061541103214308813593929159469055614459580396462067592797657080971249983993023962637889321478361450442531251940540790713205229865500968930113649556510144425306236378050199552
    ensures Pow(BASE_2, 768) == 1552518092300708935148979488462502555256886017116696611139052038026050952686376886330878408828646477950487730697131073206171580044114814391444287275041181139204454976020849905550265285631598444825262999193716468750892846853816057856
    ensures Pow(BASE_2, 794) == 104187725513747723032497684230019653080386848786186065006191528308813081840900501117522378138618035792858279853022394381967012525845615079380677438317669219470236837179906477475985598217372094136390078377123228155963917938085569707674435584
    ensures Pow(BASE_2, 821) == 13983839803942852150595109342614667231797724205161451430391332862456574221363722734055314582922181823940116947860839707067576592166539734717014172871857704892828551908192974659309961553456532605588398441519406859119106715628289835749686907766833152
    ensures Pow(BASE_2, 847) == 938439603600587528746394711938657107663969949193687942084737423845328945327403963493426274822541422606069252398088182827397836333287780407720182613329988145004965865323862822167078543736143176539997470989737828269291292380585577139908076735904949708259328
  {
    hide Pow;
    TwoUpTo635();
    TwoStep26(635);
    TwoStep27(661);
    TwoStep27(688);
    TwoStep26(715);
    TwoStep27(741);
    TwoStep26(768);
    TwoStep27(794);
    TwoStep26(821);
  }

  lemma TwoUpTo1060()
    ensures Pow(BASE_2, 874) == 125955231460491477573475786427621032361709434041052227527609040505093074454480376118282617542185112928074454067529947442741953744769736656487116570106253523089501067161322852174933318537813768637901361681988522625958449433505907473287200188342818373796829838966784
    ensures Pow(BASE_2, 901) == 16905424996341287883274873117328531408603114433155888708094742688853564881815195503181352188405030012629580639784228117724235121904085937192017247310814066461068373887968162693399408565645646113696775453062758028932736905368049975642828700760545167247665234588727615946752
    ensures Pow(BASE_2, 927) == 1134503866941667986143541334648056457619674836471095626110665786221268201568912028156408931347775536033476809532312754097331684299884724203331627335435786915422798797948806666521214607112348737236205441118127012028555106130125335760617903854636122194680820545543017511614811209728
    ensures Pow(BASE_2, 954) == 152270531428124985630521599810549817357441044649921992607311038393952323293225407851025235404406410300395389316115760440366549529143798344477781051504885209680176214061819891091731088367032088255512493648112787169901337467584294921027286931491702587700433418798504336673153571718623657984
    ensures Pow(BASE_2, 980) == 10218702384817765435680628290748613458265350453429542612493041881278524886369096016818984783322294789577433327842265575649138882500575199542984559607218336872038429045509558663769793133795138494375185186532064890845853749530218856391110938974453986086436459043203870933208875495579361330830770176
    ensures Pow(BASE_2, 1007) == 1371531017198422170813984062796802317518598158983083017528000497114049345439918236791293924884090698403321181334468027936239545965686161975806025929561417574903624675177501566133897549447983506160378135315589948797898488482227042247573189625097864053065113149143877397460535018451535921515162325512880128
    ensures Pow(BASE_2, 1034) == 184083777009901148951480851536796132722480842643692193047992403105518260024832986247893480778145316885626996612988306798242600723265962621432675768974821503362834322867062256922933472871676000378319956942935045907290266298718681990629287025193807090855270922941016369397705979841003229496151404881535205516509184
    ensures Pow(BASE_2, 1060) == 12353653155963782858428671064387042666598916611580939841119467653041402561523153496823753888027168243114445670429492914513538130943957121390808923336226715693451991227817771079374200911992994161452622538969283756626099089564495403968390097390695773702442020050803147555684412513136627351818013153603882218219464583806976
  {
    hide Pow;
    TwoUpTo847();
    TwoStep27(847);
    TwoStep27(874);
    TwoStep26(901);
    TwoStep27(927);
    TwoStep26(954);
    TwoStep27(980);
    TwoStep27(1007);
    TwoStep26(1034);
  }

  lemma TwoUpTo1220()
    ensures Pow(BASE_2, 1087) == 1658079259093488585543641880321370579349968074867852233579735924960709341741017881738939463282172923864572541864483323178105313176664420162494573772314529873277070739673631632297712908223227628267436176822048727601659965304215082587079502689477915085543915982949243040172715332527968276743670394950828083309016741815037909270528
    ensures Pow(BASE_2, 1113) == 111271815499725688772800629011191134503198215940648513515398731344102448558427492247186571945636336372109953130117917765427517239650180546323706252024222750489688174587137149597965223068997064546441930019030820261992844785845288604085086503175807634479315023727167070085897289761334199280305339395581408530165474500188492208080202760192
    ensures Pow(BASE_2, 1140) == 14934650266808366570320408622852960646761673277207226330614110735087816844749013262154996078651848582108360475310915294566518312586678747717366605686086578536636834221552886243435005663333973242092786331089313457541044379412801195944591829139721685264868125480926456023345899073123938476101817799943829891958629451457234995914228056252299083776
    ensures Pow(BASE_2, 1166) == 1002247413642806386229778738695466628040881172372534051638401393801948328691170645144155978762780209845302796400615572218584416392888912292255065979129210891240480325164738511718150687899909396883243873274131708675491721675978075317682964597248819574290839010834428131272700765856000442337084140889209687858586357484238185156848486292019888900448190464
    ensures Pow(BASE_2, 1193) == 134519370753013676703651388250411214715468162073817890013540912628130786650326137651542847947156610728799772804937199904598319744459505164257746952208818104255152370872312428756911561691562930655519273940773879111182388166158129446952285732547171613943243623247964327958707645217052354537478443534981624019968646193330245022595527470354054019030574305789345792
    ensures Pow(BASE_2, 1220) == 18054884314459144840090618635016088304830303169883605483371350527994223071059504654605336746116824352199929672794858153877003228718895371150941602324392147518393683512295152293914534107173413321605347608540276616049559533275830623099832315429297026849555280062829752723664617957262833883070847540241522097710418323304634240616080360032508486023552445858223238808600576
  {
    hide Pow;
    TwoUpTo1060();
    TwoStep27(1060);
    TwoStep26(1087);
    TwoStep27(1113);
    TwoStep26(1140);
    TwoStep27(1166);
    TwoStep27(1193);
  }

  lemma TwoUpTo189()
    ensures Pow(BASE_2, 3) == 8
    ensures Pow(BASE_2, 30) == 1073741824
    ensures Pow(BASE_2, 56) == 72057594037927936
    ensures Pow(BASE_2, 83) == 9671406556917033397649408
    ensures Pow(BASE_2, 109) == 649037107316853453566312041152512
    ensures Pow(BASE_2, 136) == 87112285931760246646623899502532662132736
    ensures Pow(BASE_2, 162) == 5846006549323611672814739330865132078623730171904
    ensures Pow(BASE_2, 189) == 784637716923335095479473677900958302012794430558004314112
  {
    hide Pow;
    PowZero(2);
    TwoStep3(0);
    TwoStep27(3);
    TwoStep26(30);
    TwoStep27(56);
    TwoStep26(83);
    TwoStep27(109);
    TwoStep26(136);
    TwoStep27(162);
  }

  lemma TwoUpTo402()
    ensures Pow(BASE_2, 216) == 105312291668557186697918027683670432318895095400549111254310977536
    ensures Pow(BASE_2, 242) == 7067388259113537318333190002971674063309935587502475832486424805170479104
    ensures Pow(BASE_2, 269) == 948568795032094272909893509191171341133987714380927500611236528192824358010355712
    ensures Pow(BASE_2, 295) == 63657374260452690195888927762793067532858387302060507832379389042324415617604272068231168
    ensures Pow(BASE_2, 322) == 8543948143683640329580086824678208458410818089426611079788166431288878903122562200091848347746304
    ensures Pow(BASE_2, 348) == 573374653997517877902705223825521735199141247292070280934397209846730719022121202017504638277531421638656
    ensures Pow(BASE_2, 375) == 76957043352332967211482500195592995713046365762627825523336510555167425334955489475418488779072100860950445293568
    ensures Pow(BASE_2, 402) == 10328999512347634358623676688012047497318823171316894051322637426162590488067364778518581413120551325743612687890989973504
  {
    hide Pow;
    TwoUpTo189();
    TwoStep27(189);
    TwoStep26(216);
    TwoStep27(242);
    TwoStep26(269);
    TwoStep27(295);
    TwoStep26(322);
    TwoStep27(348);
    TwoStep27(375);
  }

  lemma TwoUpTo614()
    ensures Pow(BASE_2, 428) == 693167423530203714894603546035770925859109268843954143792619895153655326951406405759993601526034894524347802740350892957243539456
    ensures Pow(BASE_2, 455) == 93035356709837681990313447409664580397266094167976711716030745495121828878514934185752454491361736391777602765602070775492429008462675968
    ensures Pow(BASE_2, 481) == 6243497100631984462763194459586332611497196285329942301718313919250743477639531240240612206126983942319653862242813245790895951358576570612580352
    ensures Pow(BASE_2, 508) == 837987995621412318723376562387865382967460363787024586107722590232610251879596686050117143635431464230626991136655378178359617675746660621652103062880256
    ensures Pow(BASE_2, 534) == 56236422431789954785131731346074773235871213978773957913759444657647969758393598378988008576298635714374011382919011189040103325693678746112606439760814548189184
    ensures Pow(BASE_2, 561) == 7547924849643082704483109161976537781833842440832880856752412600491248324784297704172253450355317535082936750061527689799541169259849585265122868502865392087298790653952
    ensures Pow(BASE_2, 588) == 1013065324433836171511818326096474890383898005918563696288002277756507034036354527929615978746851512277392062160962106733983191180520452956027069051297354415786421338721071661056
    ensures Pow(BASE_2, 614) == 67985663080546188632267290438715984298187919069060086169528849689651655662189087070612800289949348565617834174239552129964362155219546526644418557282123181048810402666930332036061200384
  {
    hide Pow;
    TwoUpTo402();
    TwoStep26(402);
    TwoStep27(428);
    TwoStep26(455);
    TwoStep27(481);
    TwoStep26(508);
    TwoStep27(534);
    TwoStep27(561);
    TwoStep26(588);
  }

  lemma TwoUpTo827()
    ensures Pow(BASE_2, 641) == 9124881235244390437282343211400582649786457014497119861158385035798550334417354773011825622634742799557284619147188814621377409442750875996505322639444428376503989348720529900165748384493207552
    ensures Pow(BASE_2, 667) == 612360413832167804618481300175204950565278972827733245154176943827040045789568780701801476101110276210469073715640490142747228062965884323130340172286597179476547016660734615078156785793174374530940928
    ensures Pow(BASE_2, 694) == 82189623461693336050640466920002010399224059419112091554660639110448939910891887845526039629337319550421608888377784651765928628909121935361372105791435638280550369861381946846744746216942542457363957058371584
    ensures Pow(BASE_2, 720) == 5515652263101987298728728207430913795608113109085112352897269396216198887424215820128660001943808587833784893551335930816647064191168732319583111500951066614122648616177179922993422016587311577585463592732098692120576
    ensures Pow(BASE_2, 747) == 740298315191606967520227188330889966610377319868419938630605715764070011466206019559325413145373572325939050053182159998975553533608824916574615132828322000124194610605645134711392062011527273571616649243219599128195212771328
    ensures Pow(BASE_2, 774) == 99361157907245371849534687261600163536440705095468583112899330433667260971928120725176218165033374588831214764616388685194981122823348121052434385602635592909085118465334393955216978280422300468816831948397854000057142198644227702784
    ensures Pow(BASE_2, 800) == 6668014432879854274079851790721257797144758322315908160396257811764037237817632071521432200871554290742929910593433240445888801654119365080363356052330830046095157579514014558463078285911814024728965016135886601981690748037476461291163877376
    ensures Pow(BASE_2, 827) == 894965747452342537638086997927338702835054349130332891545045303197220750167278254979540133307019636732167484663093741252324901898658543021888907063798893113141027322124350378195837539421218086757657500257242038983622829800210549487979962097077321728
  {
    hide Pow;
    TwoUpTo614();
    TwoStep27(614);
    TwoStep26(641);
    TwoStep27(667);
    TwoStep26(694);
    TwoStep27(720);
    TwoStep27(747);
    TwoStep26(774);
    TwoStep27(800);
  }

  lemma TwoUpTo1039()
    ensures Pow(BASE_2, 853) == 60060134630437601839769261564074054890494076748396028293423195126101052500953853663579281588642651046788432153477643700953461525330417946094091687253119241280317815380727220618693026799113163298559838143343221009234642712357476936954116911097916781328596992
    ensures Pow(BASE_2, 880) == 8061134813471454564702450331367746071149403778627342561766978592325956765086744071570087522699847227396765060321916636335485039665263146015175460486800225477728068298324662539195732386420081192825687147647265448061340763744378078290380812053940375922997109693874176
    ensures Pow(BASE_2, 907) == 1081947199765842424529591879509026010150599323721976877318063532086628152436172512203606540057921920808293160946190599534351047801861499980289103827892100253508375928829962412377562148201321351276593628996016513851695161943555198441141036848674890703850575013678567420592128
    ensures Pow(BASE_2, 933) == 72608247484266751113186645417475613287659189534150120071082610318161164900410369802010171606257634306142515810068016262229227795192622349013224149467890362587059123068723626657357734855190319183117148231560128769827526792328021488679545846696711820459572514914753120743347917422592
    ensures Pow(BASE_2, 960) == 9745314011399999080353382387875188310876226857595007526867906457212948690766426102465615065882010259225304916231408668183459169865203094046577987296312653419531277699956473029870789655490053648352799593479218378873685597925394874945746363615468965612827738803104277547081828589991914110976
    ensures Pow(BASE_2, 986) == 653996952628336987883560210607911261328982429019490727199554680401825592727622145076415026132626866532955732981904996841544888480036812770751011814861973559810459458912611754481266760562888863640011851938052153014134639969934006809031100094365055109531933378765047739725368031717079125173169291264
    ensures Pow(BASE_2, 1013) == 87777985100699018932094980018995348321190282174917313121792031815299158108154767154642811192581804697812555605405953787919330941803914366451585659491930724793831979211360100232569443164670944394264200660197756723065503262862530703844684136006263299396167241545208153437474241180898298976970388832824328192
    ensures Pow(BASE_2, 1039) == 5890680864316836766447387249177476247119386964598150177535756899376584320794655559932591384900650140340063891615625817543763223144510803885845624607194288107610698331745992221533871131893632012106238622173921469033288521558997823700137184806201826907368669534112523820726591354912103343876844956209126576528293888
  {
    hide Pow;
    TwoUpTo827();
    TwoStep26(827);
    TwoStep27(853);
    TwoStep27(880);
    TwoStep26(907);
    TwoStep27(933);
    TwoStep26(960);
    TwoStep27(986);
    TwoStep26(1013);
  }

  lemma TwoUpTo1066()
    ensures Pow(BASE_2, 1066) == 790633801981682102939434948120770730662330663141180149831645929794649763937481823796720248833738767559324522907487546528866440380413255769011771093518509804380927438580337349079948858367551626332967842494034160424070341732127705853976966233004529516956289283251401443563802400840744150516352841830648461966045733363646464
  {
    hide Pow;
    TwoUpTo1039();
    TwoStep27(1039);
  }

  lemma TenUpTo60()
    ensures Pow(BASE_10, 4) == 10000
    ensures Pow(BASE_10, 12) == 1000000000000
    ensures Pow(BASE_10, 20) == 100000000000000000000
    ensures Pow(BASE_10, 28) == 10000000000000000000000000000
    ensures Pow(BASE_10, 36) == 1000000000000000000000000000000000000
    ensures Pow(BASE_10, 44) == 100000000000000000000000000000000000000000000
    ensures Pow(BASE_10, 52) == 10000000000000000000000000000000000000000000000000000
    ensures Pow(BASE_10, 60) == 1000000000000000000000000000000000000000000000000000000000000
  {
    hide Pow;
    PowZero(10);
    TenStep4(0);
    TenStep8(4);
    TenStep8(12);
    TenStep8(20);
    TenStep8(28);
    TenStep8(36);
    TenStep8(44);
    TenStep8(52);
  }

  lemma TenUpTo124()
    ensures Pow(BASE_10, 68) == 100000000000000000000000000000000000000000000000000000000000000000000
    ensures Pow(BASE_10, 76) == 10000000000000000000000000000000000000000000000000000000000000000000000000000
    ensures Pow(BASE_10, 84) == 1000000000000000000000000000000000000000000000000000000000000000000000000000000000000
    ensures Pow(BASE_10, 92) == 100000000000000000000000000000000000000000000000000000000000000000000000000000000000000000000
    ensures Pow(BASE_10, 100) == 10000000000000000000000000000000000000000000000000000000000000000000000000000000000000000000000000000
    ensures Pow(BASE_10, 108) == 1000000000000000000000000000000000000000000000000000000000000000000000000000000000000000000000000000000000000
    ensures Pow(BASE_10, 116) == 100000000000000000000000000000000000000000000000000000000000000000000000000000000000000000000000000000000000000000000
    ensures Pow(BASE_10, 124) == 10000000000000000000000000000000000000000000000000000000000000000000000000000000000000000000000000000000000000000000000000000
  {
    hide Pow;
    TenUpTo60();
    TenStep8(60);
    TenStep8(68);
    TenStep8(76);
    TenStep8(84);
    TenStep8(92);
    TenStep8(100);
    TenStep8(108);
    TenStep8(116);
  }

  lemma TenUpTo188()
    ensures Pow(BASE_10, 132) == 1000000000000000000000000000000000000000000000000000000000000000000000000000000000000000000000000000000000000000000000000000000000000
    ensures Pow(BASE_10, 140) == 100000000000000000000000000000000000000000000000000000000000000000000000000000000000000000000000000000000000000000000000000000000000000000000
    ensures Pow(BASE_10, 148) == 10000000000000000000000000000000000000000000000000000000000000000000000000000000000000000000000000000000000000000000000000000000000000000000000000000
    ensures Pow(BASE_10, 156) == 1000000000000000000000000000000000000000000000000000000000000000000000000000000000000000000000000000000000000000000000000000000000000000000000000000000000000
    ensures Pow(BASE_10, 164) == 100000000000000000000000000000000000000000000000000000000000000000000000000000000000000000000000000000000000000000000000000000000000000000000000000000000000000000000
    ensures Pow(BASE_10, 172) == 10000000000000000000000000000000000000000000000000000000000000000000000000000000000000000000000000000000000000000000000000000000000000000000000000000000000000000000000000000
    ensures Pow(BASE_10, 180) == 1000000000000000000000000000000000000000000000000000000000000000000000000000000000000000000000000000000000000000000000000000000000000000000000000000000000000000000000000000000000000
    ensures Pow(BASE_10, 188) == 100000000000000000000000000000000000000000000000000000000000000000000000000000000000000000000000000000000000000000000000000000000000000000000000000000000000000000000000000000000000000000000
  {
    hide Pow;
    TenUpTo124();
    TenStep8(124);
    TenStep8(132);
    TenStep8(140);
    TenStep8(148);
    TenStep8(156);
    TenStep8(164);
    TenStep8(172);
    TenStep8(180);
  }

  lemma TenUpTo252()
    ensures Pow(BASE_10, 196) == 10000000000000000000000000000000000000000000000000000000000000000000000000000000000000000000000000000000000000000000000000000000000000000000000000000000000000000000000000000000000000000000000000000
    ensures Pow(BASE_10, 204) == 1000000000000000000000000000000000000000000000000000000000000000000000000000000000000000000000000000000000000000000000000000000000000000000000000000000000000000000000000000000000000000000000000000000000000
    ensures Pow(BASE_10, 212) == 100000000000000000000000000000000000000000000000000000000000000000000000000000000000000000000000000000000000000000000000000000000000000000000000000000000000000000000000000000000000000000000000000000000000000000000
    ensures Pow(BASE_10, 220) == 10000000000000000000000000000000000000000000000000000000000000000000000000000000000000000000000000000000000000000000000000000000000000000000000000000000000000000000000000000000000000000000000000000000000000000000000000000
    ensures Pow(BASE_10, 228) == 1000000000000000000000000000000000000000000000000000000000000000000000000000000000000000000000000000000000000000000000000000000000000000000000000000000000000000000000000000000000000000000000000000000000000000000000000000000000000
    ensures Pow(BASE_10, 236) == 100000000000000000000000000000000000000000000000000000000000000000000000000000000000000000000000000000000000000000000000000000000000000000000000000000000000000000000000000000000000000000000000000000000000000000000000000000000000000000000
    ensures Pow(BASE_10, 244) == 10000000000000000000000000000000000000000000000000000000000000000000000000000000000000000000000000000000000000000000000000000000000000000000000000000000000000000000000000000000000000000000000000000000000000000000000000000000000000000000000000000
    ensures Pow(BASE_10, 252) == 1000000000000000000000000000000000000000000000000000000000000000000000000000000000000000000000000000000000000000000000000000000000000000000000000000000000000000000000000000000000000000000000000000000000000000000000000000000000000000000000000000000000000
  {
    hide Pow;
    TenUpTo188();
    TenStep8(188);
    TenStep8(196);
    TenStep8(204);
    TenStep8(212);
    TenStep8(220);
    TenStep8(228);
    TenStep8(236);
    TenStep8(244);
  }

  lemma TenUpTo316()
    ensures Pow(BASE_10, 260) == 100000000000000000000000000000000000000000000000000000000000000000000000000000000000000000000000000000000000000000000000000000000000000000000000000000000000000000000000000000000000000000000000000000000000000000000000000000000000000000000000000000000000000000000
    ensures Pow(BASE_10, 268) == 10000000000000000000000000000000000000000000000000000000000000000000000000000000000000000000000000000000000000000000000000000000000000000000000000000000000000000000000000000000000000000000000000000000000000000000000000000000000000000000000000000000000000000000000000000
    ensures Pow(BASE_10, 276) == 1000000000000000000000000000000000000000000000000000000000000000000000000000000000000000000000000000000000000000000000000000000000000000000000000000000000000000000000000000000000000000000000000000000000000000000000000000000000000000000000000000000000000000000000000000000000000
    ensures Pow(BASE_10, 284) == 100000000000000000000000000000000000000000000000000000000000000000000000000000000000000000000000000000000000000000000000000000000000000000000000000000000000000000000000000000000000000000000000000000000000000000000000000000000000000000000000000000000000000000000000000000000000000000000
    ensures Pow(BASE_10, 292) == 10000000000000000000000000000000000000000000000000000000000000000000000000000000000000000000000000000000000000000000000000000000000000000000000000000000000000000000000000000000000000000000000000000000000000000000000000000000000000000000000000000000000000000000000000000000000000000000000000000
    ensures Pow(BASE_10, 300) == 1000000000000000000000000000000000000000000000000000000000000000000000000000000000000000000000000000000000000000000000000000000000000000000000000000000000000000000000000000000000000000000000000000000000000000000000000000000000000000000000000000000000000000000000000000000000000000000000000000000000000
    ensures Pow(BASE_10, 308) == 100000000000000000000000000000000000000000000000000000000000000000000000000000000000000000000000000000000000000000000000000000000000000000000000000000000000000000000000000000000000000000000000000000000000000000000000000000000000000000000000000000000000000000000000000000000000000000000000000000000000000000000
    ensures Pow(BASE_10, 316) == 10000000000000000000000000000000000000000000000000000000000000000000000000000000000000000000000000000000000000000000000000000000000000000000000000000000000000000000000000000000000000000000000000000000000000000000000000000000000000000000000000000000000000000000000000000000000000000000000000000000000000000000000000000
  {
    hide Pow;
    TenUpTo252();
    TenStep8(252);
    TenStep8(260);
    TenStep8(268);
    TenStep8(276);
    TenStep8(284);
    TenStep8(292);
    TenStep8(300);
    TenStep8(308);
  }

  lemma TenUpTo348()
    ensures Pow(BASE_10, 324) == 1000000000000000000000000000000000000000000000000000000000000000000000000000000000000000000000000000000000000000000000000000000000000000000000000000000000000000000000000000000000000000000000000000000000000000000000000000000000000000000000000000000000000000000000000000000000000000000000000000000000000000000000000000000000000
    ensures Pow(BASE_10, 332) == 100000000000000000000000000000000000000000000000000000000000000000000000000000000000000000000000000000000000000000000000000000000000000000000000000000000000000000000000000000000000000000000000000000000000000000000000000000000000000000000000000000000000000000000000000000000000000000000000000000000000000000000000000000000000000000000
    ensures Pow(BASE_10, 340) == 10000000000000000000000000000000000000000000000000000000000000000000000000000000000000000000000000000000000000000000000000000000000000000000000000000000000000000000000000000000000000000000000000000000000000000000000000000000000000000000000000000000000000000000000000000000000000000000000000000000000000000000000000000000000000000000000000000
    ensures Pow(BASE_10, 348) == 1000000000000000000000000000000000000000000000000000000000000000000000000000000000000000000000000000000000000000000000000000000000000000000000000000000000000000000000000000000000000000000000000000000000000000000000000000000000000000000000000000000000000000000000000000000000000000000000000000000000000000000000000000000000000000000000000000000000000
  {
    hide Pow;
    TenUpTo316();
    TenStep8(316);
    TenStep8(324);
    TenStep8(332);
    TenStep8(340);
  }
}
