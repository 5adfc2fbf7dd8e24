TestResult.DisplayName,TestResult.Outcome,TestResult.Duration,TestResult.ResourceCount,RandomSeed
EvaluatorSpec.DoubleNegation (correctness),Passed,00:00:01.7915590,5954596,1
LexerSpec.LayoutSplit (correctness),Failed,00:00:01.3120687,8095372,1
LexExamples.LexNegLess (correctness),Passed,00:00:00.8702740,1281415,1
ParserSpec.ComparisonDiverges (correctness),Passed,00:00:00.7679980,1706547,1
Pipeline.RunStages (correctness),Passed,00:00:00.7056354,403309,1
Pipeline.Run (well-formedness),Passed,00:00:00.6688056,403613,1
EvaluatorSpec.ParseIntSignExamples (correctness),Passed,00:00:00.6382491,910164,1
EvalExamples.SmallInts (correctness),Passed,00:00:00.6252665,514329,1
Parser.ParseFunctions (well-formedness),Passed,00:00:00.6181763,1670308,1
Pipeline.ParenExample (correctness),Passed,00:00:00.6124066,419547,1
LexExamples.LexNeg (correctness),Passed,00:00:00.6009899,956470,1
ParserSpec.SignedRightOperand (correctness),Passed,00:00:00.5835440,1092607,1
Builtins.Register (well-formedness),Passed,00:00:00.5716135,1899706,1
LexExamples.LexDoubleMinus (correctness),Passed,00:00:00.5701588,727641,1
LexerSpec.LexesOneToken (correctness),Passed,00:00:00.5673736,591690,1
Pipeline.PrecedenceExample (correctness),Passed,00:00:00.5477722,417238,1
EvalExamples.EvalLit (correctness),Passed,00:00:00.5417319,196049,1
LexerSpec.SkipsWhitespace (correctness),Passed,00:00:00.5017289,936192,1
EvalExamples.EvalNegation (correctness),Passed,00:00:00.4704417,589056,1
LexerSpec.LayoutFirstToken (correctness),Passed,00:00:00.4516600,1229169,1
EvalExamples.EvalNegLess (correctness),Passed,00:00:00.4461837,673096,1
EvaluatorSpec.ParseIntHexExample (correctness),Passed,00:00:00.4422424,1390741,1
Pipeline.NegExample (correctness),Passed,00:00:00.4160514,414029,1
LexExamples.ParenLayout (correctness),Passed,00:00:00.4152443,984581,1
LexExamples.ProductLayout (correctness),Passed,00:00:00.3834382,398461,1
LexExamples.LexPrecedence (correctness),Passed,00:00:00.3826513,660582,1
LexExamples.OpLexable (correctness),Passed,00:00:00.3801774,322991,1
Pipeline.NegLessExample (correctness),Passed,00:00:00.3791581,413493,1
LexExamples.OnePlusLayout (correctness),Passed,00:00:00.3761772,727832,1
LexExamples.PlusTwoCloseLayout (correctness),Passed,00:00:00.3743544,648344,1
Pipeline.DoubleMinusExample (correctness),Passed,00:00:00.3704166,413421,1
LexExamples.IntLexable (correctness),Passed,00:00:00.3699153,113923,1
EvalExamples.EvalBinary (correctness),Passed,00:00:00.3644341,208655,1
LexExamples.LexComparison (correctness),Passed,00:00:00.3638967,474119,1
Pipeline.ComparisonExample (correctness),Passed,00:00:00.3519867,406823,1
LexExamples.IntLexable (well-formedness),Passed,00:00:00.3447982,94017,1
Parser.ParseIfExpression (well-formedness),Passed,00:00:00.3390676,773535,1
LexerSpec.ReadsNumber (correctness),Passed,00:00:00.3350152,790009,1
LexExamples.CloseTimesLayout (correctness),Passed,00:00:00.3342683,482944,1
LexerSpec.ReadsNumberSpelling (correctness),Passed,00:00:00.3339049,657367,1
ParserSpec.ReturnDiverges (correctness),Passed,00:00:00.3255424,217213,1
ParserSpec.PairStart (correctness),Passed,00:00:00.3205161,584615,1
ParserSpec.BareLetCrashes (correctness),Passed,00:00:00.3122427,308848,1
ParserSpec.LeftGrouping (correctness),Passed,00:00:00.3106023,741875,1
ParseExamples.ParsePrecedence (correctness),Passed,00:00:00.3096034,335554,1
EvalExamples.EvalArithmetic (correctness),Passed,00:00:00.3078396,194765,1
ParserSpec.LiteralStatement (correctness),Passed,00:00:00.3019034,591337,1
LexerSpec.ReadsSpelling (correctness),Passed,00:00:00.2995011,546413,1
LexerSpec.ReadsTwoChar (correctness),Passed,00:00:00.2861821,455978,1
LexExamples.TwoCloseLayout (correctness),Passed,00:00:00.2833689,425995,1
ParserSpec.IntOperand (correctness),Passed,00:00:00.2812029,428111,1
EvalExamples.EvalSingleStatement (correctness),Passed,00:00:00.2753786,216926,1
EvalExamples.EvalPrecedence (correctness),Passed,00:00:00.2737986,419405,1
EvalExamples.EvalParen (correctness),Passed,00:00:00.2734854,268514,1
ParseExamples.ParseParen (correctness),Passed,00:00:00.2726134,368712,1
ParserSpec.RightGrouping (correctness),Passed,00:00:00.2724226,393736,1
Evaluator.DigitsValue (well-formedness),Passed,00:00:00.2661656,2078536,1
ParserSpec.PrefixGrouping (correctness),Passed,00:00:00.2600913,492965,1
LexerSpec.SingleCharToken (correctness),Passed,00:00:00.2595847,353195,1
ParserSpec.LetWithoutSemicolon (correctness),Passed,00:00:00.2572320,559502,1
ParserSpec.StatementStalls (correctness),Passed,00:00:00.2561562,244076,1
EvaluatorSpec.ParseIntStops (correctness),Passed,00:00:00.2527386,422593,1
EvaluatorSpec.ParseIntNaNExamples (correctness),Passed,00:00:00.2511621,595493,1
BuiltinsSpec.BuiltinLen (correctness),Passed,00:00:00.2509312,351726,1
ParserSpec.IntThenInfix (correctness),Passed,00:00:00.2455889,390790,1
ParserSpec.ParenthesizedGrouping (correctness),Passed,00:00:00.2423502,479491,1
LexerSpec.GapSkipped (correctness),Passed,00:00:00.2406671,688822,1
ParseExamples.ParsePrecedence (well-formedness),Passed,00:00:00.2391361,213207,1
Parser.ParseLetStatement (well-formedness),Passed,00:00:00.2369073,498343,1
ParseExamples.ProgramPrecedence (well-formedness),Passed,00:00:00.2294660,218603,1
BuiltinsSpec.BuiltinLen (well-formedness),Passed,00:00:00.2283341,273449,1
ParserSpec.LiteralStatement (well-formedness),Passed,00:00:00.2248228,205260,1
EvaluatorSpec.ProgramValueIsLast (correctness),Passed,00:00:00.2242657,281020,1
ParserSpec.StatementStalls (well-formedness),Passed,00:00:00.2164186,201489,1
Parser.ParseCallExpression (well-formedness),Passed,00:00:00.2146040,388773,1
LexerSpec.ReadsWordSpelling (correctness),Passed,00:00:00.2120024,559744,1
LexerSpec.ReadsWord (correctness),Passed,00:00:00.2111661,256356,1
LexerSpec.ReadsNumberSpelling (well-formedness),Passed,00:00:00.2101045,146043,1
LexerSpec.ReadsSingleChar (correctness),Passed,00:00:00.2089070,302462,1
LexerSpec.LayoutSplit (well-formedness),Passed,00:00:00.2082411,173071,1
Builtins.CreateBuiltins (well-formedness),Passed,00:00:00.2076345,405512,1
ParseExamples.ParseNeg (correctness),Passed,00:00:00.2071979,293968,1
ParserSpec.BlockDiverges (correctness),Passed,00:00:00.2063692,257207,1
EvalExamples.EvalDoubleMinus (correctness),Passed,00:00:00.2059547,244097,1
LexerSpec.KeywordIsLexable (correctness),Passed,00:00:00.2040728,147301,1
Parser.ParsePrefix (well-formedness),Passed,00:00:00.2022543,254120,1
ParserSpec.InfixInt (correctness),Passed,00:00:00.2016482,310374,1
ParserSpec.LoopStep (correctness),Passed,00:00:00.1999831,222265,1
Parser.ParseLoop (well-formedness),Passed,00:00:00.1997005,241002,1
Parser.ParseGroupedExpression (well-formedness),Passed,00:00:00.1991345,268474,1
ParserSpec.ArgumentsDiverge (correctness),Passed,00:00:00.1986890,239467,1
LexerSpec.ReadsWordSpelling (well-formedness),Passed,00:00:00.1981081,146472,1
ParserSpec.PrefixThenInfix (well-formedness),Passed,00:00:00.1934827,205879,1
Evaluator.Numeric (well-formedness),Passed,00:00:00.1924084,75915,1
ParserSpec.InfixEnds (well-formedness),Passed,00:00:00.1921205,203107,1
ParserSpec.LetStatementParses (correctness),Passed,00:00:00.1917220,335534,1
Parser.ParseBlockStatement (well-formedness),Passed,00:00:00.1916060,238889,1
Parser.ParseIdentifier (well-formedness),Passed,00:00:00.1907003,225099,1
ParseExamples.ProgramDoubleMinus (well-formedness),Passed,00:00:00.1900266,216164,1
ParserSpec.ProgramDiverges (correctness),Passed,00:00:00.1888317,254048,1
Parser.ParseStatement (well-formedness),Passed,00:00:00.1881203,223595,1
EvaluatorSpec.ProgramIgnoresLets (correctness),Passed,00:00:00.1875115,245795,1
ParseExamples.ParseDoubleMinus (correctness),Passed,00:00:00.1862542,302356,1
ParserSpec.InfixStops (correctness),Passed,00:00:00.1847421,211774,1
Evaluator.EvalExpr (well-formedness),Passed,00:00:00.1833732,249635,1
LexerSpec.ReadsSpelling (well-formedness),Passed,00:00:00.1827208,145921,1
Parser.ParseProgram (well-formedness),Passed,00:00:00.1822302,208724,1
ParserSpec.PairOperands (correctness),Passed,00:00:00.1820124,232611,1
ParseExamples.ParseNegLess (well-formedness),Passed,00:00:00.1805055,211168,1
ParserSpec.InfixEnds (correctness),Passed,00:00:00.1799793,216586,1
ParserSpec.IntThenInfix (well-formedness),Passed,00:00:00.1795977,206497,1
LexExamples.LayoutCons (correctness),Passed,00:00:00.1795024,171030,1
Evaluator.EvalOpt (well-formedness),Passed,00:00:00.1787556,192098,1
BuiltinsSpec.PopKeepsLen (correctness),Passed,00:00:00.1783976,122150,1
EvaluatorSpec.ProgramOfLetsIsNull (correctness),Passed,00:00:00.1752858,191999,1
ParserSpec.PairStart (well-formedness),Passed,00:00:00.1737387,214165,1
ParserSpec.SingleExpressionProgram (correctness),Passed,00:00:00.1733761,401202,1
EvaluatorSpec.ParseIntJunkExample (correctness),Passed,00:00:00.1726195,372252,1
ParserSpec.BlockDiverges (well-formedness),Passed,00:00:00.1725051,201956,1
LexerSpec.ReadsOperatorSpelling (correctness),Passed,00:00:00.1714835,354290,1
EvalExamples.EvalNeg (correctness),Passed,00:00:00.1714132,237170,1
ParserSpec.ProgramDiverges (well-formedness),Passed,00:00:00.1713824,206649,1
ParserSpec.PrefixAlone (correctness),Passed,00:00:00.1712838,262096,1
Parser.ParseInfix (well-formedness),Passed,00:00:00.1705646,227345,1
EvaluatorSpec.RunsThrough (well-formedness),Passed,00:00:00.1701726,183133,1
EvaluatorSpec.BlockIgnoresLets (correctness),Passed,00:00:00.1695739,261361,1
ParserSpec.Grouping (well-formedness),Passed,00:00:00.1689989,218942,1
ParserSpec.ArgumentsDiverge (well-formedness),Passed,00:00:00.1678504,201234,1
ParserSpec.PrefixGrouping (well-formedness),Passed,00:00:00.1676315,216127,1
ParseExamples.ParseNeg (well-formedness),Passed,00:00:00.1675760,211111,1
ParserSpec.InfixStops (well-formedness),Passed,00:00:00.1671473,200420,1
Evaluator.EvalBlockFrom (well-formedness),Passed,00:00:00.1648777,217033,1
ParserSpec.LoopStep (well-formedness),Passed,00:00:00.1643606,207853,1
LexExamples.OpLexable (well-formedness),Passed,00:00:00.1639406,93962,1
ParseExamples.ParseParen (well-formedness),Passed,00:00:00.1638597,214286,1
ParseExamples.ParseNegLess (correctness),Passed,00:00:00.1635635,271434,1
BuiltinsSpec.CallLenOnString (well-formedness),Passed,00:00:00.1602240,164687,1
ParserSpec.Grouping (correctness),Passed,00:00:00.1599281,217984,1
ParserSpec.GroupedStep (correctness),Passed,00:00:00.1594449,234758,1
ParserSpec.LiteralStatementShort (correctness),Passed,00:00:00.1591785,243476,1
LexerSpec.Spelling (well-formedness),Passed,00:00:00.1585588,166900,1
ParseExamples.ProgramDoubleMinus (correctness),Passed,00:00:00.1582567,208045,1
ParserSpec.RightGrouping (well-formedness),Passed,00:00:00.1570723,219385,1
ParseExamples.ProgramPrecedence (correctness),Passed,00:00:00.1569927,210609,1
ParserSpec.LeftGrouping (well-formedness),Passed,00:00:00.1559492,219358,1
ParserSpec.PrefixStep (well-formedness),Passed,00:00:00.1559124,208823,1
ParseExamples.ProgramNegLess (well-formedness),Passed,00:00:00.1535138,216501,1
ParseExamples.ProgramNeg (correctness),Passed,00:00:00.1524159,208252,1
ObjectsSpec.CounterNeverBelowCount (correctness),Passed,00:00:00.1514028,99310,1
EvaluatorSpec.NestedReturnUnwrapped (well-formedness),Passed,00:00:00.1513687,187682,1
EvaluatorSpec.IfChoosesOnTrue (correctness),Passed,00:00:00.1510294,212493,1
EvaluatorSpec.IfSwap (correctness),Passed,00:00:00.1506886,248956,1
LexerSpec.ReadsOperator (correctness),Passed,00:00:00.1499186,164073,1
ParserSpec.InfixStep (correctness),Passed,00:00:00.1479631,228402,1
ParseExamples.ProgramComparison (correctness),Passed,00:00:00.1476615,214209,1
BuiltinsSpec.PushVisibleThroughAlias (correctness),Passed,00:00:00.1469811,208419,1
EvaluatorSpec.ParseIntSkipsSpace (correctness),Passed,00:00:00.1466374,129510,1
Parser.ParseElse (well-formedness),Passed,00:00:00.1465262,289330,1
EvaluatorSpec.LetsKeepResult (correctness),Passed,00:00:00.1464958,195635,1
ParserSpec.PairOperands (well-formedness),Passed,00:00:00.1462656,211984,1
ParserSpec.ParenthesizedGrouping (well-formedness),Passed,00:00:00.1456218,216975,1
ParseExamples.ProgramParen (correctness),Passed,00:00:00.1453343,212061,1
ParseExamples.ParseDoubleMinus (well-formedness),Passed,00:00:00.1453278,210755,1
ParseExamples.ProgramNegLess (correctness),Passed,00:00:00.1447896,208335,1
EvaluatorSpec.ParseIntHex (correctness),Passed,00:00:00.1440191,294670,1
ParserSpec.LetStatementParses (well-formedness),Passed,00:00:00.1439535,203865,1
LexerSpec.FirstTokenMaximal (well-formedness),Passed,00:00:00.1438278,168535,1
ParserSpec.PrefixThenInfix (correctness),Passed,00:00:00.1435331,220361,1
ObjectsSpec.CounterNeverBelowCount (well-formedness),Passed,00:00:00.1433579,75052,1
EvaluatorSpec.ParseIntZerosExample (correctness),Passed,00:00:00.1412741,301669,1
EvaluatorSpec.NestedReturnUnwrapped (correctness),Passed,00:00:00.1400315,214556,1
ParserSpec.IntOperand (well-formedness),Passed,00:00:00.1394227,205174,1
EvaluatorSpec.BlockStopsAtReturn (correctness),Passed,00:00:00.1389003,231274,1
Parser.ParseExpression (well-formedness),Passed,00:00:00.1381637,241639,1
ParserSpec.InfixInt (well-formedness),Passed,00:00:00.1376218,211340,1
LexerSpec.TokenizeFromLayout (correctness),Passed,00:00:00.1359037,185892,1
EvaluatorSpec.BlockStopsAtReturn (well-formedness),Passed,00:00:00.1356632,187450,1
Tokens.KeywordKind (well-formedness),Passed,00:00:00.1344792,111877,1
EvaluatorSpec.ProgramStopsAtReturn (correctness),Passed,00:00:00.1338479,234885,1
Store.NewStore (well-formedness),Passed,00:00:00.1337210,46012,1
Parser.ParsePrefixExpression (well-formedness),Passed,00:00:00.1331221,214467,1
LexerSpec.ReadsSingleChar (well-formedness),Passed,00:00:00.1307100,137053,1
LexerSpec.ReadsTwoChar (well-formedness),Passed,00:00:00.1303227,136590,1
EvaluatorSpec.BlockIgnoresLets (well-formedness),Passed,00:00:00.1288421,183523,1
EvalExamples.NumericArith (correctness),Passed,00:00:00.1283357,103776,1
ParseExamples.ProgramNeg (well-formedness),Passed,00:00:00.1282915,216453,1
ParserSpec.LetWithoutSemicolon (well-formedness),Passed,00:00:00.1279047,215375,1
ParserSpec.SignedRightOperand (well-formedness),Passed,00:00:00.1274512,211525,1
ParserSpec.PrefixStep (correctness),Passed,00:00:00.1273834,265160,1
LexExamples.LexParen (correctness),Passed,00:00:00.1271825,163377,1
LexerSpec.SpacesSeparated (correctness),Passed,00:00:00.1270064,142258,1
LexExamples.LayoutLast (correctness),Passed,00:00:00.1254012,126571,1
LexerSpec.LayoutRoundTrip (well-formedness),Passed,00:00:00.1251438,146962,1
Objects.Pop (well-formedness),Passed,00:00:00.1249873,98816,1
LexerSpec.UnlexRoundTrip (well-formedness),Passed,00:00:00.1249220,141354,1
LexExamples.LayoutCons (well-formedness),Passed,00:00:00.1241477,125764,1
Utils.IsBinaryOperator (well-formedness),Passed,00:00:00.1241227,320190,1
ParseExamples.ProgramParen (well-formedness),Passed,00:00:00.1227942,219640,1
ParserSpec.GroupedStep (well-formedness),Passed,00:00:00.1210983,210173,1
Builtins.Len (well-formedness),Passed,00:00:00.1201729,102898,1
LexerSpec.UnlexRoundTrip (correctness),Passed,00:00:00.1198261,155064,1
LexExamples.LaidOut (well-formedness),Passed,00:00:00.1197249,103317,1
EvaluatorSpec.ShowNatValue (correctness),Passed,00:00:00.1195671,59629,1
Evaluator.EvalStatementsFrom (well-formedness),Passed,00:00:00.1182531,202981,1
BuiltinsSpec.PushLeavesOthers (well-formedness),Passed,00:00:00.1173049,77650,1
LexerSpec.ReadsWord (well-formedness),Passed,00:00:00.1169042,137032,1
ParserSpec.SingleExpressionProgram (well-formedness),Passed,00:00:00.1152787,211188,1
LexerSpec.OperatorSpelling (correctness),Passed,00:00:00.1152615,259496,1
Lexer.NextToken (well-formedness),Passed,00:00:00.1150317,161460,1
LexerSpec.Separated (well-formedness),Passed,00:00:00.1143249,160453,1
EvaluatorSpec.ParseIntZeroPadded (correctness),Passed,00:00:00.1137545,60246,1
LexerSpec.FirstTokenMaximal (correctness),Passed,00:00:00.1136087,157979,1
BuiltinsSpec.CallLenOnString (correctness),Passed,00:00:00.1135881,173274,1
EvaluatorSpec.ParseIntDigits (correctness),Passed,00:00:00.1124668,297870,1
Parser.PState.Peek (well-formedness),Passed,00:00:00.1110677,15853,1
LexerSpec.Layout (well-formedness),Passed,00:00:00.1092801,115967,1
Tokens.KeywordSpelling (well-formedness),Passed,00:00:00.1086535,35856,1
LexerSpec.SeparatedTail (correctness),Passed,00:00:00.1081225,163407,1
Evaluator.EvalProgram (well-formedness),Passed,00:00:00.1062856,192148,1
Parser.ParseCallArguments (well-formedness),Passed,00:00:00.1058309,242557,1
LexerSpec.ReadsNumber (well-formedness),Passed,00:00:00.1050416,137032,1
LexerSpec.LayoutRoundTrip (correctness),Passed,00:00:00.1049896,163930,1
LexerSpec.LayoutFirstToken (well-formedness),Passed,00:00:00.1044089,185705,1
Store.Parent (well-formedness),Passed,00:00:00.1019302,20108,1
Utils.CharClasses (correctness),Passed,00:00:00.1013497,340703,1
ParserSpec.InfixStep (well-formedness),Passed,00:00:00.1010144,203239,1
LexerSpec.SpacesSeparated (well-formedness),Passed,00:00:00.1005950,101681,1
ParserSpec.PrefixAlone (well-formedness),Passed,00:00:00.1005256,208105,1
Lexer.ReadWord (well-formedness),Passed,00:00:00.1005108,96812,1
LexerSpec.TokenizeAcrossGap (correctness),Passed,00:00:00.0997427,130832,1
LexExamples.Finish (correctness),Passed,00:00:00.0997347,152713,1
LexerSpec.LayoutStart (well-formedness),Passed,00:00:00.0988849,105989,1
LexerSpec.TokenizeFromLayout (well-formedness),Passed,00:00:00.0987751,145641,1
Evaluator.EvalBlock (well-formedness),Passed,00:00:00.0978237,185590,1
EvaluatorSpec.AllRunThrough (well-formedness),Passed,00:00:00.0964311,186617,1
LexerSpec.TokenizeFromStep (correctness),Passed,00:00:00.0948861,124610,1
Builtins.CallNative (well-formedness),Passed,00:00:00.0948129,198708,1
LexerSpec.ReadsTokenAt (well-formedness),Passed,00:00:00.0916157,122214,1
Builtins.Arg (well-formedness),Passed,00:00:00.0893433,17534,1
LexerSpec.ReadsOperator (well-formedness),Passed,00:00:00.0865958,137254,1
BuiltinsSpec.PushVisibleThroughAlias (well-formedness),Passed,00:00:00.0865688,131483,1
Lexer.TokenizeFrom (well-formedness),Passed,00:00:00.0837249,195672,1
LexerSpec.SingleCharSpelling (correctness),Passed,00:00:00.0824462,243072,1
LexerSpec.ReadsOperatorSpelling (well-formedness),Passed,00:00:00.0785002,110463,1
LexExamples.LayoutLast (well-formedness),Passed,00:00:00.0763841,106219,1
EvaluatorSpec.ParseIntPlus (correctness),Passed,00:00:00.0762460,112631,1
Parser.ParseFunctionParameters (well-formedness),Passed,00:00:00.0756494,201955,1
LexerSpec.KeywordSpellingIsIdentifier (correctness),Passed,00:00:00.0730023,232156,1
Store.Get (well-formedness),Passed,00:00:00.0710239,79795,1
LexerSpec.TwoCharSpelling (correctness),Passed,00:00:00.0682331,86451,1
LexerSpec.KeywordIsLexable (well-formedness),Passed,00:00:00.0677874,94083,1
Evaluator.LiteralValue (well-formedness),Passed,00:00:00.0673498,120556,1
LexerSpec.SingleCharToken (well-formedness),Passed,00:00:00.0651495,101857,1
LexerSpec.LayoutStart (correctness),Passed,00:00:00.0646458,101704,1
Lexer.Tokenize (well-formedness),Passed,00:00:00.0637966,129022,1
BuiltinsSpec.PopKeepsLen (well-formedness),Passed,00:00:00.0636756,102470,1
LexerSpec.TokenizeAtEnd (well-formedness),Passed,00:00:00.0628455,101215,1
Store.SetKeepsOthers (correctness),Passed,00:00:00.0627805,53463,1
ObjectsSpec.DictSetThenAt (correctness),Passed,00:00:00.0624831,136626,1
LexerSpec.SeparatedTail (well-formedness),Passed,00:00:00.0618177,101583,1
LexerSpec.NextTokenIsWord (correctness),Passed,00:00:00.0608533,105131,1
BuiltinsSpec.StrIdempotent (correctness),Passed,00:00:00.0599121,77769,1
LexerSpec.LexesOneToken (well-formedness),Passed,00:00:00.0598960,141417,1
LexerSpec.SkipsWhitespace (well-formedness),Passed,00:00:00.0588078,95617,1
LexerSpec.Unlex (well-formedness),Passed,00:00:00.0577436,94045,1
Builtins.StrBuiltin (well-formedness),Passed,00:00:00.0571509,113395,1
LexerSpec.NextTokenIsWord (well-formedness),Passed,00:00:00.0571313,94151,1
Builtins.PopBuiltin (well-formedness),Passed,00:00:00.0567616,113865,1
Evaluator.BinaryOp (well-formedness),Passed,00:00:00.0563962,83284,1
LexerSpec.Lexable (well-formedness),Passed,00:00:00.0557572,66461,1
LexerSpec.TokenizeAcrossGap (well-formedness),Passed,00:00:00.0555031,111387,1
BuiltinsSpec.PushLeavesOthers (correctness),Passed,00:00:00.0546073,75642,1
LexerSpec.TokenizeAtEnd (correctness),Passed,00:00:00.0539898,111834,1
LexerSpec.LetterIsNoOperator (correctness),Passed,00:00:00.0527309,105237,1
LexerSpec.LexableIsNotEof (correctness),Passed,00:00:00.0525998,77785,1
LexerSpec.TokenizeFromStep (well-formedness),Passed,00:00:00.0521338,101101,1
Objects.SetAt (well-formedness),Passed,00:00:00.0508382,81134,1
EvaluatorSpec.ParseIntUnsigned (correctness),Passed,00:00:00.0497279,66300,1
BuiltinsSpec.DictsAreFresh (correctness),Passed,00:00:00.0494656,62730,1
Utils.GetPrecedence (well-formedness),Passed,00:00:00.0494559,68551,1
LexerSpec.GapSkipped (well-formedness),Passed,00:00:00.0491579,104001,1
Store.Set (well-formedness),Passed,00:00:00.0478050,47862,1
BuiltinsSpec.StrIdempotent (well-formedness),Passed,00:00:00.0477559,65384,1
Builtins.PushBuiltin (well-formedness),Passed,00:00:00.0474874,97362,1
EvaluatorSpec.NotEqNegatesEq (well-formedness),Passed,00:00:00.0465185,70872,1
Parser.Match (well-formedness),Passed,00:00:00.0464274,47480,1
EvaluatorSpec.ParseIntUnsigned (well-formedness),Passed,00:00:00.0453056,35349,1
LexerSpec.AllLexable (well-formedness),Passed,00:00:00.0445580,65747,1
Store.SetThenGet (correctness),Passed,00:00:00.0438771,44494,1
Store.GetDelegates (correctness),Passed,00:00:00.0432370,38852,1
ObjectsSpec.ConsistencyKept (correctness),Passed,00:00:00.0425368,58580,1
ObjectsSpec.ConsistencyKept (well-formedness),Passed,00:00:00.0424627,54336,1
Lexer.IdentifierEnd (well-formedness),Passed,00:00:00.0424621,60764,1
ObjectsSpec.IndexExamples (correctness),Passed,00:00:00.0423689,68676,1
ObjectsSpec.ReadableIndices (correctness),Passed,00:00:00.0420941,57240,1
EvaluatorSpec.NotEqNegatesEq (correctness),Passed,00:00:00.0416459,87119,1
Store.GetDelegates (well-formedness),Passed,00:00:00.0407953,33240,1
LexerSpec.WordIsIdentifier (correctness),Passed,00:00:00.0397576,68963,1
EvaluatorSpec.ZerosPrefixValue (correctness),Passed,00:00:00.0384353,120717,1
Evaluator.RadixPrefix (well-formedness),Passed,00:00:00.0374977,67236,1
ObjectsSpec.PopDrift (correctness),Passed,00:00:00.0370122,80677,1
EvaluatorSpec.ParseIntMinus (correctness),Passed,00:00:00.0352031,72735,1
Ast.StmtSize (well-formedness),Passed,00:00:00.0351322,47899,1
Store.GetLocalIgnoresParents (correctness),Passed,00:00:00.0350846,27058,1
ObjectsSpec.CheckedIndexReads (correctness),Passed,00:00:00.0349161,71441,1
ObjectsSpec.PopDrift (well-formedness),Passed,00:00:00.0346023,71311,1
Lexer.ReadNumber (well-formedness),Passed,00:00:00.0344914,61618,1
ParserSpec.SignedOperands (well-formedness),Passed,00:00:00.0336956,56430,1
EvaluatorSpec.ParseIntStops (well-formedness),Passed,00:00:00.0333176,40338,1
Evaluator.UnaryOp (well-formedness),Passed,00:00:00.0327576,46977,1
EvaluatorSpec.ParseIntShowNat (correctness),Passed,00:00:00.0327441,45774,1
Evaluator.ParseUnsigned (well-formedness),Passed,00:00:00.0325535,72731,1
ObjectsSpec.CheckedIndexReads (well-formedness),Passed,00:00:00.0322743,70777,1
Objects.At (well-formedness),Passed,00:00:00.0320007,81787,1
Objects.CheckArrayIndexAccess (well-formedness),Passed,00:00:00.0319986,73297,1
Utils.IsLVal (well-formedness),Passed,00:00:00.0318033,38761,1
EvaluatorSpec.ParseIntDigits (well-formedness),Passed,00:00:00.0317195,40176,1
ParserSpec.ThreeOperands (well-formedness),Passed,00:00:00.0317109,57488,1
ObjectsSpec.DictLengthAfterSet (correctness),Passed,00:00:00.0309440,79809,1
Objects.DictSet (well-formedness),Passed,00:00:00.0302449,52453,1
Evaluator.ParseInt (well-formedness),Passed,00:00:00.0295982,48529,1
Ast.ExprSize (well-formedness),Passed,00:00:00.0294849,59943,1
EvaluatorSpec.ParseIntMinus (well-formedness),Passed,00:00:00.0294143,37000,1
Ast.ExprsSize (well-formedness),Passed,00:00:00.0293855,46029,1
Builtins.DictBuiltin (well-formedness),Passed,00:00:00.0289425,56777,1
Evaluator.SpacePrefix (well-formedness),Passed,00:00:00.0287244,44590,1
ObjectsSpec.IdentityKeys (correctness),Passed,00:00:00.0284434,52183,1
EvaluatorSpec.ParseIntPlus (well-formedness),Passed,00:00:00.0282258,35772,1
LexerSpec.SkipWhitespace (well-formedness),Passed,00:00:00.0279553,31017,1
EvaluatorSpec.RadixPrefixAppend (correctness),Passed,00:00:00.0274900,49432,1
LexerSpec.WhitespaceStops (correctness),Passed,00:00:00.0274781,70785,1
LexerSpec.TwoCharSpelling (well-formedness),Passed,00:00:00.0273168,40209,1
Parser.Render (well-formedness),Passed,00:00:00.0272076,41467,1
LexerSpec.IsIdentifier (well-formedness),Passed,00:00:00.0271875,13985,1
Ast.OptSize (well-formedness),Passed,00:00:00.0267603,44862,1
EvaluatorSpec.ParseIntHex (well-formedness),Passed,00:00:00.0260817,42337,1
Lexer.TwoCharToken (well-formedness),Passed,00:00:00.0256673,31147,1
LexerSpec.Maximal (well-formedness),Passed,00:00:00.0252043,42980,1
Objects.DictAt (well-formedness),Passed,00:00:00.0246535,28596,1
Objects.CheckIndex (well-formedness),Passed,00:00:00.0243067,38138,1
EvaluatorSpec.DropLets (well-formedness),Passed,00:00:00.0241707,38090,1
LexerSpec.OperatorSpelling (well-formedness),Passed,00:00:00.0240773,49994,1
EvaluatorSpec.ZerosValue (correctness),Passed,00:00:00.0240611,53661,1
EvaluatorSpec.DigitPrefixOfDigits (well-formedness),Passed,00:00:00.0237594,17678,1
Evaluator.StrictEquals (well-formedness),Passed,00:00:00.0234886,42860,1
Utils.Precedences (well-formedness),Passed,00:00:00.0233826,26651,1
Store.GetLocal (well-formedness),Passed,00:00:00.0233370,19779,1
Ast.StmtsSize (well-formedness),Passed,00:00:00.0231477,45778,1
Parser.Follows (well-formedness),Passed,00:00:00.0230650,19066,1
EvaluatorSpec.ZerosPrefixValue (well-formedness),Passed,00:00:00.0224990,26280,1
EvaluatorSpec.UnsignedNegated (correctness),Passed,00:00:00.0224929,40911,1
Objects.ArrayOf (well-formedness),Passed,00:00:00.0224888,30422,1
EvaluatorSpec.DigitPrefixOfDigits (correctness),Passed,00:00:00.0223840,23719,1
ObjectsSpec.IdentityKeys (well-formedness),Passed,00:00:00.0220871,36038,1
Evaluator.DigitValue (well-formedness),Passed,00:00:00.0206384,25592,1
Utils.ShowNat (well-formedness),Passed,00:00:00.0198530,34222,1
Builtins.FunctionText (well-formedness),Passed,00:00:00.0194802,24129,1
LexerSpec.KeywordSpellingIsIdentifier (well-formedness),Passed,00:00:00.0190002,44160,1
LexerSpec.IdentifierEndIs (correctness),Passed,00:00:00.0186554,25507,1
LexerSpec.SingleCharSpelling (well-formedness),Passed,00:00:00.0185341,44447,1
LexerSpec.Spaces (well-formedness),Passed,00:00:00.0183449,21074,1
Builtins.Join (well-formedness),Passed,00:00:00.0183065,12909,1
LexerSpec.IdentifierEndIs (well-formedness),Passed,00:00:00.0180756,18271,1
Parser.PState.CurrentKind (well-formedness),Passed,00:00:00.0176774,19050,1
EvaluatorSpec.SplitFirst (correctness),Passed,00:00:00.0175919,29421,1
Store.BoundInChain (well-formedness),Passed,00:00:00.0174376,18324,1
Ast.Node (well-formedness),Passed,00:00:00.0172752,28888,1
Parser.OperandPrecedence (well-formedness),Passed,00:00:00.0171744,28723,1
Objects.ElementAt (well-formedness),Passed,00:00:00.0169520,22110,1
Objects.DictOf (well-formedness),Passed,00:00:00.0168169,35615,1
Lexer.ReadChar (well-formedness),Passed,00:00:00.0168115,9686,1
ParserSpec.PeekIsNext (correctness),Passed,00:00:00.0167515,21120,1
Lexer.NumberEnd (well-formedness),Passed,00:00:00.0165864,31444,1
Parser.OptionToSeq (well-formedness),Passed,00:00:00.0164446,11181,1
EvaluatorSpec.ZerosValue (well-formedness),Passed,00:00:00.0161762,23795,1
Parser.Parsed.Extract (well-formedness),Passed,00:00:00.0157734,10815,1
Builtins.ShowInt (well-formedness),Passed,00:00:00.0157408,13687,1
Objects.Alloc (well-formedness),Passed,00:00:00.0156255,22099,1
LexerSpec.WordIsIdentifier (well-formedness),Passed,00:00:00.0155020,23107,1
Wrappers.Result.PropagateFailure (well-formedness),Passed,00:00:00.0154510,6538,1
EvaluatorSpec.SplitFirst (well-formedness),Passed,00:00:00.0152301,21473,1
LexerSpec.ConsEof (correctness),Passed,00:00:00.0138960,20871,1
EvaluatorSpec.Zeros (well-formedness),Passed,00:00:00.0135982,23038,1
Parser.PState.Current (well-formedness),Passed,00:00:00.0133948,15815,1
EvaluatorSpec.AllLets (well-formedness),Passed,00:00:00.0132444,11656,1
EvaluatorSpec.RadixPrefixAppend (well-formedness),Passed,00:00:00.0132168,19301,1
LexExamples.SpaceIsGap (correctness),Passed,00:00:00.0130582,15131,1
LexerSpec.NulMarksEnd (well-formedness),Passed,00:00:00.0129198,9013,1
EvaluatorSpec.ShowNatValue (well-formedness),Passed,00:00:00.0125650,23703,1
Lexer.CurrentChar (well-formedness),Passed,00:00:00.0122309,7082,1
Lexer.PeekChar (well-formedness),Passed,00:00:00.0121900,11042,1
Lexer.Nul (well-formedness),Passed,00:00:00.0120522,3457,1
Parser.PState.Advance (well-formedness),Passed,00:00:00.0119269,12802,1
LexerSpec.ConsEof (well-formedness),Passed,00:00:00.0119227,17153,1
LexerSpec.IsDigitString (well-formedness),Passed,00:00:00.0118855,10900,1
LexerSpec.NumberEndIs (correctness),Passed,00:00:00.0115571,17420,1
ParserSpec.At (well-formedness),Passed,00:00:00.0102812,11071,1
Wrappers.Option.Extract (well-formedness),Passed,00:00:00.0099306,6352,1
LexerSpec.IsGap (well-formedness),Passed,00:00:00.0098984,11515,1
Lexer.NulFree (well-formedness),Passed,00:00:00.0097684,8474,1
Objects.DictLength (well-formedness),Passed,00:00:00.0095132,14160,1
Objects.NewArray (well-formedness),Passed,00:00:00.0093933,11389,1
Evaluator.Negate (well-formedness),Passed,00:00:00.0092897,9338,1
Objects.ToPositiveIndex (well-formedness),Passed,00:00:00.0090402,10736,1
LexerSpec.NumberEndIs (well-formedness),Passed,00:00:00.0090059,13736,1
Objects.Push (well-formedness),Passed,00:00:00.0085944,12181,1
EvaluatorSpec.AllDigits (well-formedness),Passed,00:00:00.0076987,10588,1
LexerSpec.NulMarksEnd (correctness),Passed,00:00:00.0075717,8700,1
Wrappers.Result.Extract (well-formedness),Passed,00:00:00.0065169,6484,1
